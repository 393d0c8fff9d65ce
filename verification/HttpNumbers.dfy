/**
 The number in a Content-length: what atol makes of a string, and what is left of it in
 an int.
 */
module HttpNumbers {
  import opened Bytes
  import opened Decimals
  import opened HttpSpec

  lemma {:induction false} DigitsRead(ds: string, rest: string, before: nat)
    requires AllDigits(ds) && (rest == "" || !('0' <= rest[0] <= '9'))
    ensures Digits(ds + rest, before) == ValueFrom(before, ds)
    decreases ds
  {
    if ds == "" {
      assert ds + rest == rest;
    } else {
      assert (ds + rest)[1..] == ds[1..] + rest;
      ShiftIn(before, ds);
      DigitsRead(ds[1..], rest, 10 * before + (ds[0] - '0') as nat);
    }
  }

  // White space in the C locale.
  predicate AllSpace(s: string) {
    forall i :: 0 <= i < |s| ==> s[i] == ' ' || 9 <= s[i] as int <= 13
  }

  const LONG_LIMIT: int := 9223372036854775807

  // The nearest 64-bit long.
  function Nearest(n: int): int {
    if n > LONG_LIMIT then LONG_LIMIT else if n < -LONG_LIMIT - 1 then -LONG_LIMIT - 1 else n
  }

  lemma {:induction false} SpaceSkipped(space: string, rest: string)
    requires AllSpace(space)
    ensures Atol(space + rest) == Atol(rest)
    decreases space
  {
    hide Digits;
    if space == "" {
      assert space + rest == rest;
    } else {
      assert (space + rest)[1..] == space[1..] + rest;
      SpaceSkipped(space[1..], rest);
    }
  }

  // White space, an optional sign, digits, and then anything but a digit: the number the digits
  // denote, with its sign, as near as a long gets to it.
  lemma AtolReads(space: string, sign: string, ds: string, rest: string)
    requires AllSpace(space) && (sign == "" || sign == "+" || sign == "-")
    requires AllDigits(ds) && ds != "" && (rest == "" || !('0' <= rest[0] <= '9'))
    ensures Atol(space + (sign + (ds + rest))) == Nearest(if sign == "-" then -(Value(ds) as int) else Value(ds))
  {
    hide Digits, ValueFrom;
    var text := sign + (ds + rest);
    SpaceSkipped(space, text);
    DigitsRead(ds, rest, 0);
    if sign == "" {
      assert text == ds + rest;
      assert text[0] == ds[0];
    } else {
      assert text[0] == sign[0] && text[1..] == ds + rest;
    }
  }

  lemma EmptyValue()
    ensures ValueFrom(0, "") == 0
  {
  }

  // Without a digit there the number is zero.
  lemma AtolOfNothing(space: string, sign: string, rest: string)
    requires AllSpace(space) && (sign == "" || sign == "+" || sign == "-")
    requires rest == "" || !('0' <= rest[0] <= '9')
    requires sign == "" ==> rest == "" || !(AllSpace(rest[..1]) || rest[0] == '+' || rest[0] == '-')
    ensures Atol(space + (sign + rest)) == 0
  {
    hide Digits, ValueFrom;
    assert ValueFrom(0, "") == 0 by { EmptyValue(); }
    SpaceSkipped(space, sign + rest);
    DigitsRead("", rest, 0);
    assert "" + rest == rest;
    if sign == "" {
      assert sign + rest == rest;
      assert rest != "" ==> rest[..1][0] == rest[0];
    } else {
      assert (sign + rest)[0] == sign[0] && (sign + rest)[1..] == rest;
    }
  }

  // The low 32 bits, as a signed number.
  lemma ToInt32Is(n: int)
    ensures -2147483648 <= ToInt32(n) <= 2147483647 && (ToInt32(n) - n) % 4294967296 == 0
    ensures -2147483648 <= n <= 2147483647 ==> ToInt32(n) == n
  {
  }

  // A length that is printed is the length that is read.
  lemma LengthRead(n: nat)
    requires n <= 2147483647
    ensures ToInt32(Atol(Decimal(n))) == n
  {
    hide Atol, ToInt32, Decimal;
    DecimalValue(n);
    AtolReads("", "", Decimal(n), "");
    assert "" + ("" + (Decimal(n) + "")) == Decimal(n);
    ToInt32Is(n);
  }
}
