/**
 What every run of the connection pool keeps, and what a scan leaves behind.
 */
module PoolSafety {
  import opened Bytes
  import opened PoolSpec

  // ----- The invariant -----

  // The connection idle longest is in front.
  ghost predicate Sorted<C>(idle: seq<Idle<C>>, clock: int) {
    && (forall i, j :: 0 <= i < j < |idle| ==> idle[i].since <= idle[j].since)
    && (forall i :: 0 <= i < |idle| ==> idle[i].since <= clock)
  }

  ghost predicate Distinct<C>(idle: seq<Idle<C>>) {
    forall i, j :: 0 <= i < j < |idle| ==> idle[i].conn != idle[j].conn
  }

  ghost predicate NoneOf<C>(idle: seq<Idle<C>>, s: set<C>) {
    forall i :: 0 <= i < |idle| ==> idle[i].conn !in s
  }

  // Every connection is in one place, and all are counted.
  ghost predicate Conserved<C>(p: Pool<C>) {
    && Distinct(p.idle) && NoneOf(p.idle, p.leased) && NoneOf(p.idle, p.deleted) && p.leased !! p.deleted
    && p.cnt == |p.idle| + |p.leased|
  }

  function Floor(config: Config): int { Max(0, config.initSize) }

  ghost predicate Inv<C>(config: Config, p: Pool<C>) {
    && Conserved(p) && Sorted(p.idle, p.clock)
    && Floor(config) <= p.cnt <= Max(Floor(config), config.maxSize)
  }

  // ----- The scan -----

  // Idle for at least m_maxIdleTime seconds.
  ghost predicate Outstayed(config: Config, since: int, now: int) {
    now - since >= config.maxIdleTime * 1_000_000_000
  }

  // Whole milliseconds against seconds times a thousand is exact.
  lemma ExpiredIsOutstayed(config: Config, since: int, now: int)
    ensures Expired(config, since, now) <==> Outstayed(config, since, now)
  {
  }

  // The first k have expired, and no more of them can be evicted: the queue or the surplus over
  // the initial size is used up, or nothing that is left has expired.
  ghost predicate IsLongest<C>(config: Config, idle: seq<Idle<C>>, cnt: int, readings: seq<int>, k: nat)
    requires |idle| <= |readings|
  {
    && k <= |idle|
    && (forall j :: 0 <= j < k ==> Outstayed(config, idle[j].since, readings[j]))
    && (k > 0 ==> cnt - k >= config.initSize)
    && (k < |idle| && cnt - k > config.initSize ==>
          forall j :: k <= j < |idle| ==> !Outstayed(config, idle[j].since, readings[k]))
  }

  lemma {:induction false} ScanEvictsLongest<C>(config: Config, idle: seq<Idle<C>>, cnt: int, readings: seq<int>, clock: int)
    requires |idle| <= |readings| && Sorted(idle, clock)
    ensures IsLongest(config, idle, cnt, readings, Evicted(config, idle, cnt, readings))
    decreases |idle|
  {
    hide Expired;
    if idle != [] && cnt > config.initSize {
      ExpiredIsOutstayed(config, idle[0].since, readings[0]);
      if Expired(config, idle[0].since, readings[0]) {
        ScanEvictsLongest(config, idle[1..], cnt - 1, readings[1..], clock);
        LongestExtends(config, idle, cnt, readings, Evicted(config, idle[1..], cnt - 1, readings[1..]));
      } else {
        assert forall j :: 0 <= j < |idle| ==> idle[0].since <= idle[j].since;
      }
    }
  }

  lemma LongestExtends<C>(config: Config, idle: seq<Idle<C>>, cnt: int, readings: seq<int>, k: nat)
    requires 0 < |idle| <= |readings| && cnt > config.initSize && Outstayed(config, idle[0].since, readings[0])
    requires IsLongest(config, idle[1..], cnt - 1, readings[1..], k)
    ensures IsLongest(config, idle, cnt, readings, k + 1)
  {
    hide Outstayed;
    forall j | 0 <= j < k + 1
      ensures Outstayed(config, idle[j].since, readings[j])
    {
      assert j > 0 ==> idle[j] == idle[1..][j - 1] && readings[j] == readings[1..][j - 1];
    }
    if k + 1 < |idle| && cnt - (k + 1) > config.initSize {
      forall j | k + 1 <= j < |idle|
        ensures !Outstayed(config, idle[j].since, readings[k + 1])
      {
        assert idle[j] == idle[1..][j - 1] && readings[k + 1] == readings[1..][k];
      }
    }
  }

  // There is only one such number: a scan that stopped sooner or later would be wrong.
  lemma LongestIsUnique<C>(config: Config, idle: seq<Idle<C>>, cnt: int, readings: seq<int>, a: nat, b: nat)
    requires |idle| <= |readings|
    requires IsLongest(config, idle, cnt, readings, a) && IsLongest(config, idle, cnt, readings, b)
    ensures a == b
  {
    hide Outstayed;
    var afterA := a < |idle| && Outstayed(config, idle[a].since, readings[a]);
    var afterB := b < |idle| && Outstayed(config, idle[b].since, readings[b]);
  }

  // What a scan leaves: no expired connection, unless the pool is down to its initial size.
  lemma ScanLeavesNoneExpired<C>(config: Config, p: Pool<C>, readings: seq<int>)
    requires Inv(config, p) && Allowed(config, p, Scan(readings))
    ensures var q := After(config, p, Scan(readings));
            && q.cnt >= config.initSize
            && (q.cnt > config.initSize ==> forall i :: 0 <= i < |q.idle| ==> !Outstayed(config, q.idle[i].since, q.clock))
  {
    hide Outstayed, Evicted;
    ScanEvictsLongest(config, p.idle, p.cnt, readings, p.clock);
    var k := Evicted(config, p.idle, p.cnt, readings);
    assert forall i :: 0 <= i < |p.idle| - k ==> p.idle[k..][i] == p.idle[k + i];
  }

  // ----- What every step keeps -----

  lemma AddKeeps<C>(p: Pool<C>, conn: C, now: int)
    requires Conserved(p) && Sorted(p.idle, p.clock) && p.clock <= now
    requires NoneOf(p.idle, {conn}) && conn !in p.leased + p.deleted
    ensures Conserved(Add(p, conn, now)) && Sorted(Add(p, conn, now).idle, now)
  {
  }

  lemma ReturnKeeps<C>(config: Config, p: Pool<C>, conn: C, now: int)
    requires Inv(config, p) && Allowed(config, p, Return(conn, now))
    ensures Inv(config, After(config, p, Return(conn, now)))
  {
    assert |p.leased - {conn}| == |p.leased| - 1;
  }

  lemma GetKeeps<C>(config: Config, p: Pool<C>)
    requires Inv(config, p) && Allowed(config, p, Get)
    ensures Inv(config, After(config, p, Get))
  {
    assert |p.leased + {p.idle[0].conn}| == |p.leased| + 1;
  }

  lemma ScanKeeps<C>(config: Config, p: Pool<C>, readings: seq<int>)
    requires Inv(config, p) && Allowed(config, p, Scan(readings))
    ensures Inv(config, After(config, p, Scan(readings)))
  {
    hide Expired, Evicted;
    ScanEvictsLongest(config, p.idle, p.cnt, readings, p.clock);
    var k := Evicted(config, p.idle, p.cnt, readings);
    EvictKeeps(p, k);
  }

  lemma EvictKeeps<C>(p: Pool<C>, k: nat)
    requires Conserved(p) && Sorted(p.idle, p.clock) && k <= |p.idle|
    ensures var q := p.(idle := p.idle[k..], cnt := p.cnt - k, deleted := p.deleted + First(p.idle, k));
            Conserved(q) && forall clock :: clock >= p.clock ==> Sorted(q.idle, clock)
  {
    var q := p.idle[k..];
    assert forall i :: 0 <= i < |q| ==> q[i] == p.idle[k + i];
  }

  lemma ProduceKeeps<C>(config: Config, p: Pool<C>, conn: C, now: int)
    requires Inv(config, p) && Allowed(config, p, Produce(conn, now))
    ensures Inv(config, After(config, p, Produce(conn, now)))
  {
    hide Conserved, Sorted;
    assert NoneOf(p.idle, {conn});
    if p.cnt < config.maxSize {
      AddKeeps(p, conn, now);
    }
  }

  // A scan that has evicted i connections so far.
  ghost function Upto<C>(p: Pool<C>, readings: seq<int>, i: nat): (q: Pool<C>)
    requires i <= |p.idle| <= |readings|
    ensures |q.idle| == |p.idle| - i && q.cnt == p.cnt - i
  {
    p.(idle := p.idle[i..], cnt := p.cnt - i, deleted := p.deleted + First(p.idle, i),
       clock := if i == 0 then p.clock else readings[i - 1])
  }

  lemma UptoNothing<C>(p: Pool<C>, readings: seq<int>)
    requires |p.idle| <= |readings|
    ensures Upto(p, readings, 0) == p
  {
  }

  // It looks at the one in front, and evicts it if it has expired and the pool can spare it.
  lemma NextLook<C>(config: Config, p: Pool<C>, readings: seq<int>, i: nat)
    requires Sorted(p.idle, p.clock) && i < |p.idle| <= |readings| && Ascending(readings, p.clock)
    ensures var q := Upto(p, readings, i);
            && |q.idle| == |p.idle| - i && q.idle[0] == p.idle[i] && q.cnt == p.cnt - i && q.idle[0].since <= readings[i]
            && Upto(p, readings, i + 1) == q.(idle := q.idle[1..], cnt := q.cnt - 1,
                                              deleted := q.deleted + {q.idle[0].conn}, clock := readings[i])
    ensures Evicted(config, p.idle, p.cnt, readings) >= i && p.cnt - i > config.initSize ==>
              (Expired(config, p.idle[i].since, readings[i]) <==> Evicted(config, p.idle, p.cnt, readings) >= i + 1)
  {
    hide Evicted, Expired, Outstayed;
    ExpiredIsOutstayed(config, p.idle[i].since, readings[i]);
    assert First(p.idle, i + 1) == First(p.idle, i) + {p.idle[i].conn};
    ScanEvictsLongest(config, p.idle, p.cnt, readings, p.clock);
  }

  // A scan that finds the front not expired ends there ...
  lemma StopsAt<C>(config: Config, p: Pool<C>, readings: seq<int>, i: nat)
    requires Sorted(p.idle, p.clock) && i < |p.idle| <= |readings| && Ascending(readings, p.clock)
    requires Evicted(config, p.idle, p.cnt, readings) == i && p.cnt - i > config.initSize
    ensures Upto(p, readings, i).(clock := readings[i]) == After(config, p, Scan(readings))
  {
    hide Evicted, First;
  }

  // ... and one that runs out of connections, or of surplus, has looked no further.
  lemma EndsAt<C>(config: Config, p: Pool<C>, readings: seq<int>, i: nat)
    requires Sorted(p.idle, p.clock) && i <= |p.idle| <= |readings| && Ascending(readings, p.clock)
    requires Evicted(config, p.idle, p.cnt, readings) >= i && (p.cnt - i <= config.initSize || i == |p.idle|)
    ensures Upto(p, readings, i) == After(config, p, Scan(readings))
  {
    hide Evicted, First, Expired;
    ScanEvictsLongest(config, p.idle, p.cnt, readings, p.clock);
  }

  lemma EmptyHolds<C>()
    ensures Conserved(Empty<C>()) && Sorted<C>([], 0)
  {
  }

  lemma StepKeeps<C>(config: Config, p: Pool<C>, step: Step<C>)
    requires Inv(config, p) && Allowed(config, p, step)
    ensures Inv(config, After(config, p, step)) && p.deleted <= After(config, p, step).deleted
  {
    DeletedGrows(config, p, step);
    hide Inv, Allowed, After;
    match step {
      case Produce(conn, now) => ProduceKeeps(config, p, conn, now);
      case Get => GetKeeps(config, p);
      case Return(conn, now) => ReturnKeeps(config, p, conn, now);
      case Scan(readings) => ScanKeeps(config, p, readings);
    }
  }

  lemma DeletedGrows<C>(config: Config, p: Pool<C>, step: Step<C>)
    requires Allowed(config, p, step)
    ensures p.deleted <= After(config, p, step).deleted
  {
    hide Evicted, First;
  }

  // ----- Who is leased, and from when a connection counts as idle -----

  // Nothing that stays in the queue has been idle for longer than what is leased.
  lemma GetLeasesLongestIdle<C>(config: Config, p: Pool<C>)
    requires Inv(config, p) && Allowed(config, p, Get)
    ensures var q := After(config, p, Get);
            && |q.idle| == |p.idle| - 1 && |q.leased| == |p.leased| + 1 && p.leased <= q.leased
            && (forall i, j :: 0 <= i < |p.idle| && 0 <= j < |q.idle| && p.idle[i].conn in q.leased ==>
                  p.idle[i].since <= q.idle[j].since)
  {
    GetKeeps(config, p);
  }

  // A connection that is returned or produced is idle from that moment on; the others stay as
  // they are.
  lemma IdleFromNow<C>(config: Config, p: Pool<C>, conn: C, now: int)
    requires Inv(config, p)
    ensures Allowed(config, p, Return(conn, now)) ==>
              var q := After(config, p, Return(conn, now));
              && conn !in q.leased && |q.idle| == |p.idle| + 1 && p.idle <= q.idle
              && (forall i :: 0 <= i < |q.idle| && q.idle[i].conn == conn ==> q.idle[i].since == now)
              && exists i :: 0 <= i < |q.idle| && q.idle[i].conn == conn
    ensures Allowed(config, p, Produce(conn, now)) ==>
              var q := After(config, p, Produce(conn, now));
              && q.leased == p.leased
              && if p.cnt < config.maxSize then
                   |q.idle| == 1 && q.idle[0].conn == conn && q.idle[0].since == now && q.cnt == p.cnt + 1
                 else q == p
  {
    assert Allowed(config, p, Return(conn, now)) ==> forall i :: 0 <= i < |p.idle| ==> p.idle[i].conn != conn;
    assert (p.idle + [Idle(conn, now)])[|p.idle|].conn == conn;
  }

  // Every connection there is: idle, leased or deleted.
  ghost predicate Somewhere<C>(p: Pool<C>, c: C) {
    (exists i :: 0 <= i < |p.idle| && p.idle[i].conn == c) || c in p.leased || c in p.deleted
  }

  // No step loses a connection, and only the producer makes one.
  lemma NoneVanishes<C>(config: Config, p: Pool<C>, step: Step<C>, c: C)
    requires Inv(config, p) && Allowed(config, p, step)
    ensures Somewhere(After(config, p, step), c)
            <==> Somewhere(p, c) || (step.Produce? && step.conn == c && p.cnt < config.maxSize)
  {
    hide Evicted, Inv;
    var q := After(config, p, step);
    match step {
      case Produce(conn, now) =>
        assert p.cnt < config.maxSize ==> q.idle[0].conn == conn;
      case Get => assert forall i :: 0 <= i < |q.idle| ==> q.idle[i] == p.idle[i + 1];
      case Return(conn, now) =>
        assert q.idle[|p.idle|].conn == conn && forall i :: 0 <= i < |p.idle| ==> q.idle[i] == p.idle[i];
      case Scan(readings) =>
        var k := Evicted(config, p.idle, p.cnt, readings);
        assert forall i :: 0 <= i < |q.idle| ==> q.idle[i] == p.idle[k + i];
        assert forall i :: k <= i < |p.idle| ==> p.idle[i] == q.idle[i - k];
        assert forall i :: 0 <= i < k ==> p.idle[i].conn in First(p.idle, k);
    }
  }

  // So no scan deletes a connection before it has been idle for m_maxIdleTime.
  lemma ReturnedIsSafe<C>(config: Config, p: Pool<C>, conn: C, now: int, readings: seq<int>)
    requires Inv(config, p) && Allowed(config, p, Return(conn, now))
    requires Allowed(config, After(config, p, Return(conn, now)), Scan(readings))
    requires forall i :: 0 <= i < |readings| ==> readings[i] - now < config.maxIdleTime * 1_000_000_000
    ensures conn !in After(config, After(config, p, Return(conn, now)), Scan(readings)).deleted
  {
    hide Evicted, Expired;
    ReturnKeeps(config, p, conn, now);
    IdleFromNow(config, p, conn, now);
    var q := After(config, p, Return(conn, now));
    ScanEvictsLongest(config, q.idle, q.cnt, readings, q.clock);
  }

  // ----- Runs -----

  // The pool after the constructor's loop: one connection after the other.
  function Filled<C>(conns: seq<C>, nows: seq<int>): Pool<C>
    requires |conns| == |nows|
  {
    if conns == [] then Empty()
    else
      var last := |conns| - 1;
      Add(Filled(conns[..last], nows[..last]), conns[last], nows[last])
  }

  ghost predicate Started<C>(config: Config, conns: seq<C>, nows: seq<int>) {
    && |conns| == |nows| == Floor(config) && Ascending(nows, 0)
    && forall i, j :: 0 <= i < j < |conns| ==> conns[i] != conns[j]
  }

  lemma {:induction false} FilledHolds<C>(conns: seq<C>, nows: seq<int>)
    requires |conns| == |nows| && Ascending(nows, 0)
    requires forall i, j :: 0 <= i < j < |conns| ==> conns[i] != conns[j]
    ensures var p := Filled(conns, nows);
            && Conserved(p) && Sorted(p.idle, p.clock) && p.leased == {} && p.deleted == {}
            && |p.idle| == |conns| && (forall i :: 0 <= i < |conns| ==> p.idle[i].conn == conns[i])
            && p.clock == if nows == [] then 0 else nows[|nows| - 1]
  {
    if conns != [] {
      var last := |conns| - 1;
      FilledHolds(conns[..last], nows[..last]);
      AddKeeps(Filled(conns[..last], nows[..last]), conns[last], nows[last]);
    }
  }

  ghost predicate Runs<C>(config: Config, p: Pool<C>, steps: seq<Step<C>>)
    decreases steps
  {
    steps == [] || (Allowed(config, p, steps[0]) && Runs(config, After(config, p, steps[0]), steps[1..]))
  }

  ghost function Run<C>(config: Config, p: Pool<C>, steps: seq<Step<C>>): Pool<C>
    requires Runs(config, p, steps)
    decreases steps
  {
    if steps == [] then p else Run(config, After(config, p, steps[0]), steps[1..])
  }

  lemma {:induction false} RunKeeps<C>(config: Config, p: Pool<C>, steps: seq<Step<C>>)
    requires Inv(config, p) && Runs(config, p, steps)
    ensures Inv(config, Run(config, p, steps)) && p.deleted <= Run(config, p, steps).deleted
    decreases steps
  {
    hide Inv, After, Allowed;
    if steps != [] {
      StepKeeps(config, p, steps[0]);
      RunKeeps(config, After(config, p, steps[0]), steps[1..]);
    }
  }

  // In every run: the counter is the connections that are idle or leased, none is both or twice
  // in the queue, the queue is sorted, and the counter keeps its bounds.
  lemma PoolSafety<C>(config: Config, conns: seq<C>, nows: seq<int>, steps: seq<Step<C>>)
    requires Started(config, conns, nows) && Runs(config, Filled(conns, nows), steps)
    ensures Inv(config, Run(config, Filled(conns, nows), steps))
  {
    hide Runs, Run;
    FilledHolds(conns, nows);
    RunKeeps(config, Filled(conns, nows), steps);
  }

  // A connection that was deleted is never idle or leased again.
  lemma DeletedStaysDeleted<C>(config: Config, p: Pool<C>, steps: seq<Step<C>>, c: C)
    requires Inv(config, p) && Runs(config, p, steps) && c in p.deleted
    ensures var q := Run(config, p, steps); c !in q.leased && NoneOf(q.idle, {c})
  {
    hide Runs, Run;
    RunKeeps(config, p, steps);
    var q := Run(config, p, steps);
    assert forall i :: 0 <= i < |q.idle| ==> q.idle[i].conn !in q.deleted;
  }
}
