/**
 * The per-container record of the oldest revisions (`Resources` holding a
 * memory `Pressure`) and its one-line rendering
 * `memory: {limit: L, prevTotal: P, integral: I, current: C}`, together
 * with a reader of that line that recovers the four values.
 */
module LegacyResources {
  import opened Wrappers
  import opened MachineInt
  import opened Strings
  import opened Decimal

  /** The memory state: signed counters, the last PSI averages and a signed grace countdown. */
  datatype Pressure = Pressure(
    limit: i64,
    prevTotal: i64,
    integral: i64,
    current: i64,
    avg10: real,
    avg60: real,
    avg300: real,
    graceTicks: i64,
    interval: i64)

  datatype Resources = Resources(memory: Pressure)

  const Head: string := "memory: {"
  const Tail: string := "}"

  /** The field labels, each with the text that precedes it after the separating comma. */
  const LimitLabel: string := "limit: "
  const PrevTotalLabel: string := " prevTotal: "
  const IntegralLabel: string := " integral: "
  const CurrentLabel: string := " current: "

  /** The four comma-separated pieces between the braces. */
  function Fields(limit: int, prevTotal: int, integral: int, current: int): (r: seq<string>)
    ensures |r| == 4 && Separated(r, ',')
  {
    LabelsHaveNoComma();
    var a := Labelled(LimitLabel, limit);
    var b := Labelled(PrevTotalLabel, prevTotal);
    var c := Labelled(IntegralLabel, integral);
    var d := Labelled(CurrentLabel, current);
    [a, b, c, d]
  }

  /** A label followed by a decimal; it has a comma only if the label has one. */
  function Labelled(tag: string, n: int): (r: string)
    ensures r == tag + FormatInt(n)
    ensures ',' !in tag ==> ',' !in r
  {
    tag + FormatInt(n)
  }

  lemma LabelsHaveNoComma()
    ensures ',' !in LimitLabel && ',' !in PrevTotalLabel && ',' !in IntegralLabel && ',' !in CurrentLabel
  {
  }

  /** The rendering: the four pieces joined by commas, between `memory: {` and `}`. */
  function MemoryText(limit: int, prevTotal: int, integral: int, current: int): (s: string)
    ensures HasPrefix(s, Head) && HasSuffix(s, Tail)
  {
    var s := Head + Join(Fields(limit, prevTotal, integral, current), ',') + Tail;
    assert s[..|Head|] == Head;
    assert s[|s| - |Tail|..] == Tail;
    s
  }

  lemma JoinFour(a: string, b: string, c: string, d: string)
    ensures Join([a, b, c, d], ',') == a + "," + b + "," + c + "," + d
  {
    var f := [a, b, c, d];
    assert f[1..] == [b, c, d] && f[2..] == [c, d] && f[3..] == [d];
    assert Join([d], ',') == d;
    assert Join([c, d], ',') == c + "," + d;
    assert Join([b, c, d], ',') == b + "," + (c + "," + d);
  }

  /** One more field: appending `,` and a labelled value to a prefix already known to be `q`. */
  lemma ExtendPrefix(h: string, p: string, q: string, tag: string, v: string, lit: string)
    requires h + p == q && "," + tag == lit
    ensures h + (p + "," + (tag + v)) == q + lit + v
  {
    assert h + (p + "," + (tag + v)) == (h + p) + ("," + tag) + v;
  }

  lemma Assemble(a: string, b: string, c: string, d: string)
    ensures Head + ((LimitLabel + a) + "," + (PrevTotalLabel + b) + "," + (IntegralLabel + c) + ","
        + (CurrentLabel + d)) + Tail ==
      "memory: {limit: " + a + ", prevTotal: " + b + ", integral: " + c + ", current: " + d + "}"
  {
    var p1 := LimitLabel + a;
    var q1 := "memory: {limit: " + a;
    assert Head + LimitLabel == "memory: {limit: ";
    assert Head + p1 == q1;
    var p2 := p1 + "," + (PrevTotalLabel + b);
    var q2 := q1 + ", prevTotal: " + b;
    ExtendPrefix(Head, p1, q1, PrevTotalLabel, b, ", prevTotal: ");
    var p3 := p2 + "," + (IntegralLabel + c);
    var q3 := q2 + ", integral: " + c;
    ExtendPrefix(Head, p2, q2, IntegralLabel, c, ", integral: ");
    var p4 := p3 + "," + (CurrentLabel + d);
    var q4 := q3 + ", current: " + d;
    ExtendPrefix(Head, p3, q3, CurrentLabel, d, ", current: ");
    assert Head + p4 + Tail == q4 + "}";
  }

  /**
   * The rendering is exactly
   * `fmt.Sprintf("memory: {limit: %d, prevTotal: %d, integral: %d, current: %d}", …)`.
   */
  lemma MemoryTextIsFormat(limit: int, prevTotal: int, integral: int, current: int)
    ensures MemoryText(limit, prevTotal, integral, current) ==
      "memory: {limit: " + FormatInt(limit) + ", prevTotal: " + FormatInt(prevTotal)
      + ", integral: " + FormatInt(integral) + ", current: " + FormatInt(current) + "}"
  {
    var a, b, c, d := FormatInt(limit), FormatInt(prevTotal), FormatInt(integral), FormatInt(current);
    JoinFour(LimitLabel + a, PrevTotalLabel + b, IntegralLabel + c, CurrentLabel + d);
    Assemble(a, b, c, d);
  }

  /** `Resources.String` of resources.go. */
  function String(r: Resources): (s: string)
    ensures HasPrefix(s, Head) && HasSuffix(s, Tail)
  {
    MemoryText(r.memory.limit, r.memory.prevTotal, r.memory.integral, r.memory.current)
  }

  /** A piece `tag` followed by a decimal int64. */
  function FieldValue(piece: string, tag: string): Option<int> {
    if HasPrefix(piece, tag) then
      match ParseInt(piece[|tag|..])
      case Parsed(n) => Some(n)
      case _ => None
    else None
  }

  /** Reads the four values back from a rendering; `None` for any other text. */
  function ParseMemoryText(s: string): Option<(int, int, int, int)> {
    if |s| < |Head| + |Tail| || !HasPrefix(s, Head) || !HasSuffix(s, Tail) then None
    else
      var parts := Split(s[|Head|..|s| - |Tail|], ',');
      if |parts| != 4 then None
      else
        match (FieldValue(parts[0], LimitLabel), FieldValue(parts[1], PrevTotalLabel),
               FieldValue(parts[2], IntegralLabel), FieldValue(parts[3], CurrentLabel))
        case (Some(l), Some(p), Some(i), Some(c)) => Some((l, p, i, c))
        case _ => None
  }

  lemma FieldValueFormat(tag: string, n: int)
    requires -TwoTo63 <= n < TwoTo63
    ensures FieldValue(tag + FormatInt(n), tag) == Some(n)
  {
    var piece := tag + FormatInt(n);
    assert piece[..|tag|] == tag;
    assert piece[|tag|..] == FormatInt(n);
    ParseIntFormat(n);
  }

  /** Reading a rendering of four int64 values gives back those values, in that order. */
  lemma {:induction false} MemoryTextRoundTrip(limit: i64, prevTotal: i64, integral: i64, current: i64)
    ensures ParseMemoryText(MemoryText(limit, prevTotal, integral, current)) ==
      Some((limit as int, prevTotal as int, integral as int, current as int))
  {
    var f := Fields(limit, prevTotal, integral, current);
    var s := MemoryText(limit, prevTotal, integral, current);
    var body := Join(f, ',');
    assert s[|Head|..|s| - |Tail|] == body;
    SplitJoin(f, ',');
    FieldValueFormat(LimitLabel, limit);
    FieldValueFormat(PrevTotalLabel, prevTotal);
    FieldValueFormat(IntegralLabel, integral);
    FieldValueFormat(CurrentLabel, current);
  }

  /**
   * The rendering depends on the limit, previous total, integral and
   * current use and on nothing else, and it determines all four: two
   * records render alike exactly when those four fields agree.
   */
  lemma StringDeterminesFourFields(a: Resources, b: Resources)
    ensures String(a) == String(b) <==>
      && a.memory.limit == b.memory.limit
      && a.memory.prevTotal == b.memory.prevTotal
      && a.memory.integral == b.memory.integral
      && a.memory.current == b.memory.current
  {
    var x := a.memory;
    var y := b.memory;
    MemoryTextRoundTrip(x.limit, x.prevTotal, x.integral, x.current);
    MemoryTextRoundTrip(y.limit, y.prevTotal, y.integral, y.current);
  }
}
