/**
 The search for a path that is not taken, as upload, share and move do it: the name, and
 then the name with 1, 2, 3, ... in front of its extension.
 */
module FreeNames {
  import opened Decimals

  // ----- QString -----

  // lastIndexOf('.')
  function LastDot(s: string): (i: int)
    ensures -1 <= i < |s|
    ensures i >= 0 ==> s[i] == '.'
    ensures forall j :: i < j < |s| ==> s[j] != '.'
  {
    if s == [] then -1
    else if s[|s| - 1] == '.' then |s| - 1
    else LastDot(s[..|s| - 1])
  }

  // left(n) and right(n) give the whole string for an n that is negative or too large.
  function Left(s: string, n: int): string {
    if 0 <= n <= |s| then s[..n] else s
  }

  function Right(s: string, n: int): string {
    if 0 <= n <= |s| then s[|s| - n..] else s
  }

  // ----- The search -----

  // The path tried after k others.  A name without a dot is written twice.
  function Candidate(folder: string, name: string, k: nat): string {
    if k == 0 then folder + name
    else
      var index := LastDot(name);
      folder + Left(name, index) + Decimal(k) + Right(name, |name| - index)
  }

  // With a dot the number goes in front of the last one; nothing of the name is lost.
  lemma CandidateKeepsName(folder: string, name: string, k: nat)
    requires k > 0
    ensures var index := LastDot(name);
            Candidate(folder, name, k)
            == if index >= 0 then folder + name[..index] + Decimal(k) + name[index..]
               else folder + name + Decimal(k) + name
    ensures |Candidate(folder, name, k)| > |folder + name|
  {
  }

  lemma MiddleSame<T>(a: seq<T>, x: seq<T>, y: seq<T>, b: seq<T>)
    requires a + x + b == a + y + b
    ensures x == y
  {
    assert |a + x + b| == |a| + |x| + |b| && |a + y + b| == |a| + |y| + |b|;
    assert x == (a + x + b)[|a|..|a| + |x|] && y == (a + y + b)[|a|..|a| + |y|];
  }

  lemma CandidatesDiffer(folder: string, name: string, a: nat, b: nat)
    requires a != b
    ensures Candidate(folder, name, a) != Candidate(folder, name, b)
  {
    hide Decimal, LastDot;
    if a == 0 {
      CandidateKeepsName(folder, name, b);
    } else if b == 0 {
      CandidateKeepsName(folder, name, a);
    } else if Candidate(folder, name, a) == Candidate(folder, name, b) {
      var index := LastDot(name);
      MiddleSame(folder + Left(name, index), Decimal(a), Decimal(b), Right(name, |name| - index));
      DecimalValue(a);
      DecimalValue(b);
    }
  }

  ghost function Tried(folder: string, name: string, k: nat): set<string> {
    set j | 0 <= j < k :: Candidate(folder, name, j)
  }

  lemma {:induction false} TriedSize(folder: string, name: string, k: nat)
    ensures |Tried(folder, name, k)| == k
  {
    if k > 0 {
      TriedSize(folder, name, k - 1);
      assert Tried(folder, name, k) == Tried(folder, name, k - 1) + {Candidate(folder, name, k - 1)};
      forall j | 0 <= j < k - 1
        ensures Candidate(folder, name, j) != Candidate(folder, name, k - 1)
      {
        CandidatesDiffer(folder, name, j, k - 1);
      }
    }
  }

  lemma SubsetSize<T>(a: set<T>, b: set<T>)
    requires a <= b
    ensures |a| <= |b|
  {
    if a != {} {
      var x :| x in a;
      SubsetSize(a - {x}, b - {x});
    }
  }

  // As long as every path tried is taken, there are no more of them than taken paths.
  lemma TriedBound(folder: string, name: string, existing: set<string>, k: nat)
    requires forall j :: 0 <= j < k ==> Candidate(folder, name, j) in existing
    ensures k <= |existing|
  {
    TriedSize(folder, name, k);
    SubsetSize(Tried(folder, name, k), existing);
  }

  // Among the first |existing| + 1 paths one is free.
  lemma SomeCandidateIsFree(folder: string, name: string, existing: set<string>)
    ensures exists k: nat :: k <= |existing| && Candidate(folder, name, k) !in existing
  {
    if forall j :: 0 <= j < |existing| + 1 ==> Candidate(folder, name, j) in existing {
      TriedBound(folder, name, existing, |existing| + 1);
    }
  }

  // The loop.  It stops at the first path that is free, after no more turns than there are
  // taken paths.
  method FindFreePath(folder: string, fileName: string, existing: set<string>) returns (strNewPath: string, i: nat)
    ensures strNewPath !in existing
    ensures 1 <= i <= |existing| + 1 && strNewPath == Candidate(folder, fileName, i - 1)
    ensures forall k :: 0 <= k < i - 1 ==> Candidate(folder, fileName, k) in existing
  {
    hide Decimal, LastDot;
    i := 1;
    strNewPath := folder + fileName;
    while strNewPath in existing
      invariant 1 <= i <= |existing| + 1 && strNewPath == Candidate(folder, fileName, i - 1)
      invariant forall k :: 0 <= k < i - 1 ==> Candidate(folder, fileName, k) in existing
      decreases |existing| - i
    {
      TriedBound(folder, fileName, existing, i);
      var index := LastDot(fileName);
      var strRight := Right(fileName, |fileName| - index);
      var strLeft := Left(fileName, index);
      strNewPath := folder + strLeft + Decimal(i) + strRight;
      i := i + 1;
    }
    TriedBound(folder, fileName, existing, i - 1);
  }
}
