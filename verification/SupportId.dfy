/** The support id printed on an organization item: 19 padded digits in groups of four. */
module SupportId {
  import opened Decimal

  const WIDTH: nat := 19
  const MAX_INT64: nat := 0x7FFF_FFFF_FFFF_FFFF

  /** FormatSupportID. Each slice is checked to be in range for every id an int64 column can hold. */
  function Format(id: nat): (s: string)
    requires id <= MAX_INT64
  {
    FitsWidth(id);
    var d := PrintPadded(id, WIDTH);
    d[0..4] + " " + d[4..8] + " " + d[8..12] + " " + d[12..16] + " " + d[16..19]
  }

  /** What a support agent does with the printed id: drop the blanks ... */
  function WithoutSpaces(s: string): (r: string) {
    if s == "" then ""
    else (if s[0] == ' ' then "" else [s[0]]) + WithoutSpaces(s[1..])
  }

  lemma FitsWidth(id: nat)
    requires id <= MAX_INT64
    ensures |PrintPadded(id, WIDTH)| == 19
    ensures Read(PrintPadded(id, WIDTH)) == id
  {
    assert Pow10(19) == 10_000_000_000_000_000_000 by {
      assert Pow10(4) == 10_000;
      assert Pow10(8) == 100_000_000;
      assert Pow10(12) == 1_000_000_000_000;
      assert Pow10(16) == 10_000_000_000_000_000;
    }
    PaddedForm(id, WIDTH);
  }

  lemma {:induction false} DigitsHaveNoSpaces(d: string)
    requires AllDigits(d)
    ensures WithoutSpaces(d) == d
  {
    if d != "" {
      DigitsHaveNoSpaces(d[1..]);
    }
  }

  lemma {:induction false} DropGroup(group: string, rest: string)
    requires AllDigits(group)
    ensures WithoutSpaces(group + (" " + rest)) == group + WithoutSpaces(rest)
  {
    var s := group + (" " + rest);
    if group == "" {
      assert s == " " + rest && s[1..] == rest;
    } else {
      assert s[1..] == group[1..] + (" " + rest);
      DropGroup(group[1..], rest);
    }
  }

  /** ... and read the number: nothing is lost, and the layout is always 4-4-4-4-3. */
  lemma FormatLosesNothing(id: nat)
    requires id <= MAX_INT64
    ensures |Format(id)| == 23
    ensures forall i :: 0 <= i < 23 ==> (Format(id)[i] == ' ' <==> i in {4, 9, 14, 19})
    ensures AllDigits(WithoutSpaces(Format(id))) && |WithoutSpaces(Format(id))| == 19
    ensures Read(WithoutSpaces(Format(id))) == id
  {
    FitsWidth(id);
    var d := PrintPadded(id, WIDTH);
    var a, b, c, e, f := d[0..4], d[4..8], d[8..12], d[12..16], d[16..19];
    var r3 := e + (" " + f);
    var r2 := c + (" " + r3);
    var r1 := b + (" " + r2);
    assert Format(id) == a + (" " + r1);
    DropGroup(a, r1);
    DropGroup(b, r2);
    DropGroup(c, r3);
    DropGroup(e, f);
    DigitsHaveNoSpaces(f);
    assert a + (b + (c + (e + f))) == d;
  }

  /** Two items never show the same support id. */
  lemma FormatInjective(x: nat, y: nat)
    requires x <= MAX_INT64 && y <= MAX_INT64 && Format(x) == Format(y)
    ensures x == y
  {
    FormatLosesNothing(x);
    FormatLosesNothing(y);
  }
}
