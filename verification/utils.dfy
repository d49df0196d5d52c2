/**
 * pkg/utils: the `EXCLUDE` list of containers the sidecar leaves alone, and
 * the reader of a cgroup `memory.pressure` file, whose records follow the
 * kernel's PSI line format
 * `some avg10=0.00 avg60=0.00 avg300=0.00 total=0`.
 */
module Utils {
  import opened Wrappers
  import opened MachineInt
  import opened Strings
  import opened Decimal
  import Registry

  // ---------------------------------------------------------------------
  // Exclusion list
  // ---------------------------------------------------------------------

  const ExcludeVar: string := "EXCLUDE"

  /** The comma-separated names in `EXCLUDE`; none when the variable is unset. */
  function ContainersToExclude(env: map<string, string>): (r: seq<string>)
    ensures ExcludeVar !in env ==> r == []
    ensures ExcludeVar in env ==> |r| >= 1 && Separated(r, ',') && Join(r, ',') == env[ExcludeVar]
    ensures ExcludeVar in env && env[ExcludeVar] == "" ==> r == [""]
  {
    Registry.NameList(env, ExcludeVar)
  }

  // ---------------------------------------------------------------------
  // PSI records
  // ---------------------------------------------------------------------

  datatype Kind = SomeKind | FullKind

  /**
   * The capture groups of one match of
   * `(some|full) avg10=(\d+\.\d+) avg60=(\d+\.\d+) avg300=(\d+\.\d+) total=(\d+)`,
   * each average split at its decimal point.
   */
  datatype Record = Record(
    kind: Kind,
    avg10Int: string, avg10Frac: string,
    avg60Int: string, avg60Frac: string,
    avg300Int: string, avg300Frac: string,
    total: string)

  /** Every group of the pattern is a non-empty run of ASCII digits. */
  predicate WellFormed(r: Record) {
    && |r.avg10Int| > 0 && AllDigits(r.avg10Int) && |r.avg10Frac| > 0 && AllDigits(r.avg10Frac)
    && |r.avg60Int| > 0 && AllDigits(r.avg60Int) && |r.avg60Frac| > 0 && AllDigits(r.avg60Frac)
    && |r.avg300Int| > 0 && AllDigits(r.avg300Int) && |r.avg300Frac| > 0 && AllDigits(r.avg300Frac)
    && |r.total| > 0 && AllDigits(r.total)
  }

  function KindText(k: Kind): string {
    match k
    case SomeKind => "some"
    case FullKind => "full"
  }

  /** The text of one labelled average: `<tag><int>.<frac>`. */
  function FieldText(tag: string, intPart: string, frac: string): string {
    tag + intPart + "." + frac
  }

  /** The labels of the three averages, in the order the pattern lists them. */
  const AvgTags: seq<string> := [" avg10=", " avg60=", " avg300="]

  /** The three averages of a record, each as its integer part and its fraction. */
  function AvgsOf(r: Record): seq<(string, string)> {
    [(r.avg10Int, r.avg10Frac), (r.avg60Int, r.avg60Frac), (r.avg300Int, r.avg300Frac)]
  }

  /** The labelled averages `tags[n]` with values `avs[n]`, written one after another. */
  function AveragesText(tags: seq<string>, avs: seq<(string, string)>): string
    requires |avs| == |tags|
    decreases |tags|
  {
    if |tags| == 0 then ""
    else FieldText(tags[0], avs[0].0, avs[0].1) + AveragesText(tags[1..], avs[1..])
  }

  /** The text a record was matched from. */
  function Render(r: Record): string {
    KindText(r.kind) + AveragesText(AvgTags, AvgsOf(r)) + " total=" + r.total
  }

  /** Every average is a non-empty digit run before the point and one after it. */
  predicate GroupsOk(avs: seq<(string, string)>) {
    forall n :: 0 <= n < |avs| ==>
      |avs[n].0| > 0 && AllDigits(avs[n].0) && |avs[n].1| > 0 && AllDigits(avs[n].1)
  }

  /** Labels that begin with a character that cannot continue a digit run. */
  predicate TagsOk(tags: seq<string>) {
    forall n :: 0 <= n < |tags| ==> |tags[n]| > 0 && !IsDigit(tags[n][0])
  }

  /** `lit` is written in `s` from position `j` on. */
  predicate LiteralAt(s: string, j: nat, lit: string) {
    j + |lit| <= |s| && s[j..j + |lit|] == lit
  }

  /**
   * `LiteralAt` stated character by character. The completeness proofs carry
   * their literals in this form, which the solver unfolds only on demand.
   */
  predicate SpelledAt(s: string, j: nat, lit: string) {
    j + |lit| <= |s| && CharsAt(s, j, lit)
  }

  /** Character by character, `s` from `j` on agrees with `lit`. */
  predicate CharsAt(s: string, j: nat, lit: string)
    requires j + |lit| <= |s|
    decreases |lit|
  {
    |lit| == 0 || (s[j] == lit[0] && CharsAt(s, j + 1, lit[1..]))
  }

  /** The end of the maximal digit run starting at `j`. */
  function DigitRunEnd(s: string, j: nat): (e: nat)
    requires j <= |s|
    ensures j <= e <= |s|
    decreases |s| - j
  {
    if j < |s| && IsDigit(s[j]) then DigitRunEnd(s, j + 1) else j
  }

  /** The run `DigitRunEnd` finds is all digits and cannot be extended. */
  lemma {:induction false} DigitRunEndSound(s: string, j: nat)
    requires j <= |s|
    ensures AllDigits(s[j..DigitRunEnd(s, j)])
    ensures DigitRunEnd(s, j) == |s| || !IsDigit(s[DigitRunEnd(s, j)])
    decreases |s| - j
  {
    if j < |s| && IsDigit(s[j]) {
      var e := DigitRunEnd(s, j + 1);
      DigitRunEndSound(s, j + 1);
      assert s[j..e] == [s[j]] + s[j + 1..e];
    }
  }

  /** A `\d+\.\d+` group at `j`: its integer part, its fraction, and where it ends. */
  function DecimalAt(s: string, j: nat): (r: Option<(string, string, nat)>)
    requires j <= |s|
    ensures r.Some? ==> j < r.value.2 <= |s|
  {
    var e1 := DigitRunEnd(s, j);
    if e1 == j || e1 == |s| || s[e1] != '.' then None
    else
      var e2 := DigitRunEnd(s, e1 + 1);
      if e2 == e1 + 1 then None else Some((s[j..e1], s[e1 + 1..e2], e2))
  }

  /** A labelled average `<tag>\d+\.\d+` at `j`. */
  function FieldAt(s: string, j: nat, tag: string): (r: Option<(string, string, nat)>)
    requires j <= |s|
    ensures r.Some? ==> j + |tag| < r.value.2 <= |s|
  {
    if LiteralAt(s, j, tag) then DecimalAt(s, j + |tag|) else None
  }

  function KindAt(s: string, i: nat): Option<Kind> {
    if LiteralAt(s, i, "some") then Some(SomeKind)
    else if LiteralAt(s, i, "full") then Some(FullKind)
    else None
  }

  /**
   * The match of the record pattern that starts at `i`, if any, and where it
   * ends. The digit groups are greedy; each is followed by a character that
   * is not a digit, so the match is unique.
   */
  function MatchAt(s: string, i: nat): Option<(Record, nat)>
    requires i <= |s|
  {
    match KindAt(s, i)
    case None => None
    case Some(k) =>
      match AveragesAt(s, i + 4, AvgTags)
      case None => None
      case Some(av) =>
        MatchTotal(s, av.1, RecordOf(k, av.0, ""))
  }

  /** The record of kind `k` with the three averages `a` and the total `total`. */
  function RecordOf(k: Kind, a: seq<(string, string)>, total: string): (r: Record)
    requires |a| == 3
    ensures r.kind == k && AvgsOf(r) == a && r.total == total
  {
    assert a == [a[0], a[1], a[2]];
    Record(k, a[0].0, a[0].1, a[1].0, a[1].1, a[2].0, a[2].1, total)
  }

  /** The labelled averages at `j`, one for each tag in turn, and where the last one ends. */
  function AveragesAt(s: string, j: nat, tags: seq<string>): (r: Option<(seq<(string, string)>, nat)>)
    requires j <= |s|
    ensures r.Some? ==> |r.value.0| == |tags| && j <= r.value.1 <= |s|
    decreases |tags|
  {
    if |tags| == 0 then Some(([], j))
    else
      match FieldAt(s, j, tags[0])
      case None => None
      case Some(a) =>
        match AveragesAt(s, a.2, tags[1..])
        case None => None
        case Some(rest) => Some(([(a.0, a.1)] + rest.0, rest.1))
  }

  /** The ` total=\d+` tail at `j`, completing a record whose averages are matched. */
  function MatchTotal(s: string, j: nat, r: Record): Option<(Record, nat)>
    requires j <= |s|
  {
    if !LiteralAt(s, j, " total=") then None
    else
      var e := DigitRunEnd(s, j + 7);
      if e == j + 7 then None else Some((r.(total := s[j + 7..e]), e))
  }

  /** `FindAllStringSubmatch(s, -1)` from position `i`: successive leftmost, non-overlapping matches. */
  function FindAll(s: string, i: nat): seq<Record>
    requires i <= |s|
    decreases |s| - i
  {
    if i == |s| then []
    else
      match MatchAt(s, i)
      case Some(m) =>
        if i < m.1 <= |s| then [m.0] + FindAll(s, m.1) else []
      case None => FindAll(s, i + 1)
  }

  // ---------------------------------------------------------------------
  // Values of a record
  // ---------------------------------------------------------------------

  datatype MemMetrics = MemMetrics(avg10: real, avg60: real, avg300: real, total: u64)

  datatype MemPsi = MemPsi(some: MemMetrics, full: MemMetrics)

  const ZeroMetrics := MemMetrics(0.0, 0.0, 0.0, 0)

  function Pow10(n: nat): (r: nat)
    ensures r >= 1
  {
    if n == 0 then 1 else 10 * Pow10(n - 1)
  }

  /** The exact value of `int.frac`. */
  function DecimalValue(intPart: string, frac: string): real
    requires AllDigits(intPart) && AllDigits(frac)
  {
    DigitsValue(intPart) as real + DigitsValue(frac) as real / Pow10(|frac|) as real
  }

  /** `parseUint`: `ParseUint(value, 10, 64)` with its error dropped. */
  function ParseUintLenient(value: string): (r: u64)
    ensures ParseUint(value).Parsed? ==> r == ParseUint(value).n
    ensures |value| > 0 && AllDigits(value) ==>
      r == (if DigitsValue(value) <= MaxU64 then DigitsValue(value) else MaxU64)
  {
    ParseUintSpec(value);
    U64ValueOf(ParseUint(value))
  }

  function Metrics(r: Record): MemMetrics
    requires WellFormed(r)
  {
    MemMetrics(
      DecimalValue(r.avg10Int, r.avg10Frac),
      DecimalValue(r.avg60Int, r.avg60Frac),
      DecimalValue(r.avg300Int, r.avg300Frac),
      ParseUintLenient(r.total))
  }

  /** Each record, in order, overwrites the part of the result its kind names. */
  function Collect(ms: seq<Record>, acc: MemPsi): MemPsi
    requires forall i :: 0 <= i < |ms| ==> WellFormed(ms[i])
    decreases |ms|
  {
    if |ms| == 0 then acc
    else
      var m := Metrics(ms[0]);
      var acc' := if ms[0].kind == SomeKind then acc.(some := m) else acc.(full := m);
      Collect(ms[1..], acc')
  }

  /** The last record of kind `k`, if there is one. */
  function LastOfKind(ms: seq<Record>, k: Kind): Option<Record>
    decreases |ms|
  {
    if |ms| == 0 then None
    else if ms[|ms| - 1].kind == k then Some(ms[|ms| - 1])
    else LastOfKind(ms[..|ms| - 1], k)
  }

  /** `parseMemPsiOutput`: at least two records must match. */
  function ParseMemPsiOutput(output: string): (r: Result<MemPsi, string>)
    ensures r.Err? <==> |FindAll(output, 0)| < 2
    ensures r.Err? ==> r.error == "expected data for both 'some' and 'full' not found"
  {
    var ms := FindAll(output, 0);
    if |ms| < 2 then Err("expected data for both 'some' and 'full' not found")
    else
      FindAllWellFormed(output, 0);
      Ok(Collect(ms, MemPsi(ZeroMetrics, ZeroMetrics)))
  }

  // ---------------------------------------------------------------------
  // Properties
  // ---------------------------------------------------------------------

  lemma {:induction false} DigitRunIsMaximal(s: string, j: nat, e: nat)
    requires j <= e <= |s|
    requires AllDigits(s[j..e])
    requires e == |s| || !IsDigit(s[e])
    ensures DigitRunEnd(s, j) == e
    decreases e - j
  {
    if j < e {
      assert IsDigit(s[j..e][0]);
      assert s[j + 1..e] == s[j..e][1..];
      DigitRunIsMaximal(s, j + 1, e);
    }
  }

  /** A slice equal to `x + y` splits into a slice equal to `x` and one equal to `y`. */
  lemma SlicePeel(s: string, a: nat, c: nat, x: string, y: string)
    requires a <= c <= |s|
    requires s[a..c] == x + y
    ensures a + |x| <= c
    ensures s[a..a + |x|] == x && s[a + |x|..c] == y
  {
    assert s[a..a + |x|] == s[a..c][..|x|];
    assert s[a + |x|..c] == s[a..c][|x|..];
  }

  /** A slice cut at three inner points is the concatenation of the four pieces. */
  lemma SliceFour(s: string, i0: nat, i1: nat, i2: nat, i3: nat, i4: nat)
    requires i0 <= i1 <= i2 <= i3 <= i4 <= |s|
    ensures s[i0..i4] == s[i0..i1] + s[i1..i2] + s[i2..i3] + s[i3..i4]
  {
    assert s[i0..i2] == s[i0..i1] + s[i1..i2];
    assert s[i0..i3] == s[i0..i2] + s[i2..i3];
    assert s[i0..i4] == s[i0..i3] + s[i3..i4];
  }

  /** A literal spelled at `j` is the slice of `s` it covers, and conversely. */
  lemma {:induction false} SpelledIsLiteral(s: string, j: nat, lit: string)
    ensures SpelledAt(s, j, lit) <==> LiteralAt(s, j, lit)
    decreases |lit|
  {
    if |lit| > 0 && j + |lit| <= |s| {
      SpelledIsLiteral(s, j + 1, lit[1..]);
      assert s[j..j + |lit|][0] == s[j];
      assert s[j + 1..j + |lit|] == s[j..j + |lit|][1..];
      assert s[j..j + |lit|] == [s[j]] + s[j + 1..j + |lit|];
    }
  }

  /** A literal `x + y` spelled at `j` is `x` spelled at `j` followed by `y`. */
  lemma {:induction false} SpelledSplit(s: string, j: nat, x: string, y: string, m: nat)
    requires SpelledAt(s, j, x + y) && m == j + |x|
    ensures SpelledAt(s, j, x) && SpelledAt(s, m, y)
    decreases |x|
  {
    if |x| == 0 {
      assert x + y == y;
    } else {
      assert (x + y)[0] == x[0] && (x + y)[1..] == x[1..] + y;
      SpelledSplit(s, j + 1, x[1..], y, m);
    }
  }

  /** A literal `x + y` at `j` is `x` at `j` followed by `y`. */
  lemma LiteralSplit(s: string, j: nat, x: string, y: string)
    requires LiteralAt(s, j, x + y)
    ensures LiteralAt(s, j, x) && LiteralAt(s, j + |x|, y)
  {
    SlicePeel(s, j, j + |x + y|, x, y);
  }

  /** The first character of a literal found at `j`. */
  lemma LiteralHead(s: string, j: nat, lit: string)
    requires |lit| > 0 && LiteralAt(s, j, lit)
    ensures j < |s| && s[j] == lit[0]
  {
    assert s[j] == s[j..j + |lit|][0];
  }

  /** Well-formedness, stated over the list of averages. */
  lemma WellFormedGroups(r: Record)
    ensures WellFormed(r) <==> GroupsOk(AvgsOf(r)) && |r.total| > 0 && AllDigits(r.total)
  {
    var a := AvgsOf(r);
    assert a[0] == (r.avg10Int, r.avg10Frac);
    assert a[1] == (r.avg60Int, r.avg60Frac);
    assert a[2] == (r.avg300Int, r.avg300Frac);
  }

  /** A slice cut at one inner point. */
  lemma SliceJoin(s: string, a: nat, b: nat, c: nat)
    requires a <= b <= c <= |s|
    ensures s[a..c] == s[a..b] + s[b..c]
  {
  }

  lemma FieldAtSound(s: string, j: nat, tag: string)
    requires j <= |s|
    requires FieldAt(s, j, tag).Some?
    ensures var (ip, fp, e) := FieldAt(s, j, tag).value;
      j + |tag| < e <= |s| && |ip| > 0 && AllDigits(ip) && |fp| > 0 && AllDigits(fp)
      && s[j..e] == FieldText(tag, ip, fp)
  {
    var d := j + |tag|;
    var e1 := DigitRunEnd(s, d);
    var f := e1 + 1;
    var e2 := DigitRunEnd(s, f);
    assert FieldAt(s, j, tag) == Some((s[d..e1], s[f..e2], e2));
    FieldParts(s, j, tag, d, e1, f, e2);
  }

  /** `FieldAtSound` with the four cut points of the match named. */
  lemma FieldParts(s: string, j: nat, tag: string, d: nat, e1: nat, f: nat, e2: nat)
    requires j <= d < e1 && f == e1 + 1 && f < e2 <= |s|
    requires s[j..d] == tag && s[e1] == '.'
    requires e1 == DigitRunEnd(s, d) && e2 == DigitRunEnd(s, f)
    ensures AllDigits(s[d..e1]) && AllDigits(s[f..e2])
    ensures s[j..e2] == FieldText(tag, s[d..e1], s[f..e2])
  {
    DigitRunEndSound(s, d);
    DigitRunEndSound(s, f);
    assert s[e1..f] == ".";
    SliceFour(s, j, d, e1, f, e2);
  }

  /** Every average `AveragesAt` finds is a pair of non-empty digit runs. */
  lemma {:induction false} AveragesAtGroups(s: string, j: nat, tags: seq<string>)
    requires j <= |s|
    requires AveragesAt(s, j, tags).Some?
    ensures GroupsOk(AveragesAt(s, j, tags).value.0)
    decreases |tags|
  {
    if |tags| > 0 {
      var a := FieldAt(s, j, tags[0]).value;
      FieldAtSound(s, j, tags[0]);
      AveragesAtGroups(s, a.2, tags[1..]);
      var rest := AveragesAt(s, a.2, tags[1..]).value.0;
      var avs := [(a.0, a.1)] + rest;
      forall n | 0 <= n < |avs|
        ensures |avs[n].0| > 0 && AllDigits(avs[n].0) && |avs[n].1| > 0 && AllDigits(avs[n].1)
      {
        if n > 0 { assert avs[n] == rest[n - 1]; }
      }
    }
  }

  /** What `AveragesAt` finds is written exactly where it looked: the labelled averages, in order. */
  lemma {:induction false} AveragesAtText(s: string, j: nat, tags: seq<string>)
    requires j <= |s|
    requires AveragesAt(s, j, tags).Some?
    ensures var (avs, e) := AveragesAt(s, j, tags).value;
      s[j..e] == AveragesText(tags, avs)
    decreases |tags|
  {
    if |tags| > 0 {
      var a := FieldAt(s, j, tags[0]).value;
      var rest := AveragesAt(s, a.2, tags[1..]).value;
      var avs := [(a.0, a.1)] + rest.0;
      assert avs[0] == (a.0, a.1) && avs[1..] == rest.0;
      SliceJoin(s, j, a.2, rest.1);
      FieldAtSound(s, j, tags[0]);
      AveragesAtText(s, a.2, tags[1..]);
    }
  }

  /** Matching one more labelled average in front of the rest. */
  lemma AveragesAtStep(s: string, j: nat, tags: seq<string>, avs: seq<(string, string)>, m: nat, e: nat)
    requires j <= |s| && |avs| == |tags| > 0
    requires FieldAt(s, j, tags[0]) == Some((avs[0].0, avs[0].1, m))
    requires AveragesAt(s, m, tags[1..]) == Some((avs[1..], e))
    ensures AveragesAt(s, j, tags) == Some((avs, e))
  {
    assert [(avs[0].0, avs[0].1)] + avs[1..] == avs;
  }

  /**
   * Well-formed averages written at `j` under labels that cannot continue a
   * digit run, and not followed by a digit, are found by `AveragesAt`.
   */
  lemma {:induction false} AveragesAtComplete(s: string, j: nat, tags: seq<string>, avs: seq<(string, string)>, e: nat)
    requires |avs| == |tags| && GroupsOk(avs) && TagsOk(tags)
    requires SpelledAt(s, j, AveragesText(tags, avs)) && e == j + |AveragesText(tags, avs)|
    requires e == |s| || !IsDigit(s[e])
    ensures AveragesAt(s, j, tags) == Some((avs, e))
    decreases |tags|
  {
    if |tags| > 0 {
      var f := FieldText(tags[0], avs[0].0, avs[0].1);
      var rest := AveragesText(tags[1..], avs[1..]);
      var m := j + |f|;
      TailsOk(tags, avs);
      SpelledSplit(s, j, f, rest, m);
      if |tags| > 1 {
        AveragesTextHead(tags[1..], avs[1..]);
        SpelledNonDigit(s, m, rest);
      }
      AveragesAtComplete(s, m, tags[1..], avs[1..], e);
      AveragesAtHead(s, j, tags, avs, m, e);
    }
  }

  /** The first average is well formed, and the rest of the labels and averages are as good as all of them. */
  lemma TailsOk(tags: seq<string>, avs: seq<(string, string)>)
    requires |avs| == |tags| > 0 && GroupsOk(avs) && TagsOk(tags)
    ensures |avs[0].0| > 0 && AllDigits(avs[0].0) && |avs[0].1| > 0 && AllDigits(avs[0].1)
    ensures |avs[1..]| == |tags[1..]| && GroupsOk(avs[1..]) && TagsOk(tags[1..])
  {
    assert GroupsOk(avs[1..]) by {
      forall n | 0 <= n < |avs[1..]|
        ensures |avs[1..][n].0| > 0 && AllDigits(avs[1..][n].0) && |avs[1..][n].1| > 0 && AllDigits(avs[1..][n].1)
      {
        assert avs[1..][n] == avs[n + 1];
      }
    }
    assert TagsOk(tags[1..]) by {
      forall n | 0 <= n < |tags[1..]| ensures |tags[1..][n]| > 0 && !IsDigit(tags[1..][n][0]) {
        assert tags[1..][n] == tags[n + 1];
      }
    }
  }

  /** The rendering of labelled averages starts with the first label's first character. */
  lemma AveragesTextHead(tags: seq<string>, avs: seq<(string, string)>)
    requires |avs| == |tags| > 0 && |tags[0]| > 0
    ensures |AveragesText(tags, avs)| > 0 && AveragesText(tags, avs)[0] == tags[0][0]
  {
    var f := FieldText(tags[0], avs[0].0, avs[0].1);
    assert f[0] == tags[0][0];
  }

  /** A spelled literal that starts with a non-digit puts a non-digit at `j`. */
  lemma SpelledNonDigit(s: string, j: nat, lit: string)
    requires SpelledAt(s, j, lit) && |lit| > 0 && !IsDigit(lit[0])
    ensures j < |s| && !IsDigit(s[j])
  {
  }

  /** The first labelled average, found in front of the already matched rest. */
  lemma AveragesAtHead(s: string, j: nat, tags: seq<string>, avs: seq<(string, string)>, m: nat, e: nat)
    requires |avs| == |tags| > 0
    requires |avs[0].0| > 0 && AllDigits(avs[0].0) && |avs[0].1| > 0 && AllDigits(avs[0].1)
    requires SpelledAt(s, j, FieldText(tags[0], avs[0].0, avs[0].1))
    requires m == j + |FieldText(tags[0], avs[0].0, avs[0].1)|
    requires m == |s| || !IsDigit(s[m])
    requires AveragesAt(s, m, tags[1..]) == Some((avs[1..], e))
    ensures AveragesAt(s, j, tags) == Some((avs, e))
  {
    FieldAtComplete(s, j, tags[0], avs[0].0, avs[0].1, m);
    AveragesAtStep(s, j, tags, avs, m, e);
  }

  /**
   * The pieces `MatchAt` found: the kind, the averages ending at `j`, the
   * ` total=` tag from `j` to `t`, and the total from `t` to `e`.
   */
  lemma MatchAtParts(s: string, i: nat) returns (k: Kind, avs: seq<(string, string)>, j: nat, t: nat, e: nat)
    requires i <= |s|
    requires MatchAt(s, i).Some?
    ensures KindAt(s, i) == Some(k) && i + 4 <= |s|
    ensures AveragesAt(s, i + 4, AvgTags) == Some((avs, j)) && |avs| == 3
    ensures t == j + 7 && t <= |s| && s[j..t] == " total="
    ensures e == DigitRunEnd(s, t) && t < e
    ensures MatchAt(s, i) == Some((RecordOf(k, avs, s[t..e]), e))
  {
    k := KindAt(s, i).value;
    var av := AveragesAt(s, i + 4, AvgTags).value;
    avs, j := av.0, av.1;
    t := j + 7;
    var p := RecordOf(k, avs, "");
    assert MatchAt(s, i) == MatchTotal(s, j, p);
    e := DigitRunEnd(s, t);
    MatchTotalAt(s, j, p, e);
    assert p.(total := s[t..e]) == RecordOf(k, avs, s[t..e]);
  }

  /** A record `MatchAt` returns is well formed: every group is a non-empty digit run. */
  lemma MatchAtWellFormed(s: string, i: nat)
    requires i <= |s|
    requires MatchAt(s, i).Some?
    ensures i < MatchAt(s, i).value.1 <= |s|
    ensures WellFormed(MatchAt(s, i).value.0)
  {
    var k, avs, j, t, e := MatchAtParts(s, i);
    AveragesAtGroups(s, i + 4, AvgTags);
    DigitRunEndSound(s, t);
    var total := s[t..e];
    assert |total| > 0 && AllDigits(total);
    WellFormedGroups(RecordOf(k, avs, total));
  }

  /** A match spans exactly the rendering of the record it returns. */
  lemma MatchAtRendered(s: string, i: nat)
    requires i <= |s|
    requires MatchAt(s, i).Some?
    ensures var (r, e) := MatchAt(s, i).value;
      i < e <= |s| && s[i..e] == Render(r)
  {
    var k, avs, j, t, e := MatchAtParts(s, i);
    var r := RecordOf(k, avs, s[t..e]);
    var a := i + 4;
    assert s[i..a] == KindText(k);
    AveragesAtText(s, a, AvgTags);
    RenderFromParts(s, i, r, a, j, t, e);
  }

  /** A record whose kind, averages and total sit side by side in `s` is rendered there. */
  lemma RenderFromParts(s: string, i: nat, r: Record, a: nat, j: nat, t: nat, e: nat)
    requires i <= a <= j <= t <= e <= |s|
    requires s[i..a] == KindText(r.kind)
    requires s[a..j] == AveragesText(AvgTags, AvgsOf(r))
    requires s[j..t] == " total=" && s[t..e] == r.total
    ensures s[i..e] == Render(r)
  {
    SliceFour(s, i, a, j, t, e);
  }

  /** Every record `FindAll` returns is well formed. */
  lemma {:induction false} FindAllWellFormed(s: string, i: nat)
    requires i <= |s|
    ensures forall j :: 0 <= j < |FindAll(s, i)| ==> WellFormed(FindAll(s, i)[j])
    decreases |s| - i
  {
    if i < |s| {
      match MatchAt(s, i)
      case Some(m) =>
        if i < m.1 <= |s| {
          MatchAtWellFormed(s, i);
          FindAllWellFormed(s, m.1);
        }
      case None =>
        FindAllWellFormed(s, i + 1);
    }
  }

  /**
   * A well-formed record rendered at `i` and not followed by another digit
   * is matched there, and the match ends right after it.
   */
  lemma MatchAtComplete(s: string, i: nat, r: Record)
    requires WellFormed(r)
    requires SpelledAt(s, i, Render(r))
    requires i + |Render(r)| == |s| || !IsDigit(s[i + |Render(r)|])
    ensures MatchAt(s, i) == Some((r, i + |Render(r)|))
  {
    var j := i + 4 + |AveragesText(AvgTags, AvgsOf(r))|;
    var e := i + |Render(r)|;
    KindPart(s, i, r, j, e);
    AveragesPart(s, i, r, j, e);
    TotalPart(s, i, r, j, e);
    MatchAtOf(s, i, r.kind, AvgsOf(r), j, Some((r, e)));
  }

  /**
   * The record `r` rendered at `i`, with `j` where its averages end and `e`
   * where it ends, and no digit at `e`.
   */
  predicate RenderedAt(s: string, i: nat, r: Record, j: nat, e: nat) {
    && WellFormed(r)
    && j == i + 4 + |AveragesText(AvgTags, AvgsOf(r))|
    && e == i + |Render(r)|
    && SpelledAt(s, i, Render(r))
    && (e == |s| || (e < |s| && !IsDigit(s[e])))
  }

  /** The kind of a record rendered at `i` is read there. */
  lemma KindPart(s: string, i: nat, r: Record, j: nat, e: nat)
    requires RenderedAt(s, i, r, j, e)
    ensures i + 4 <= |s| && KindAt(s, i) == Some(r.kind) && |AvgsOf(r)| == 3
  {
    RenderedPieces(s, i, r, j, j + 7, e);
    SpelledIsLiteral(s, i, KindText(r.kind));
    KindAtOf(s, i, r.kind);
  }

  /** The averages of a well-formed record rendered at `i` are matched after its kind. */
  lemma AveragesPart(s: string, i: nat, r: Record, j: nat, e: nat)
    requires RenderedAt(s, i, r, j, e)
    ensures i + 4 <= |s| && AveragesAt(s, i + 4, AvgTags) == Some((AvgsOf(r), j))
  {
    RenderedPieces(s, i, r, j, j + 7, e);
    SpelledNonDigit(s, j, " total=");
    WellFormedGroups(r);
    TagsOkAvg();
    AveragesAtComplete(s, i + 4, AvgTags, AvgsOf(r), j);
  }

  /** The total of a well-formed record rendered at `i` completes the record after its averages. */
  lemma TotalPart(s: string, i: nat, r: Record, j: nat, e: nat)
    requires RenderedAt(s, i, r, j, e)
    ensures j <= |s| && MatchTotal(s, j, RecordOf(r.kind, AvgsOf(r), "")) == Some((r, e))
  {
    var t := j + 7;
    RenderedPieces(s, i, r, j, t, e);
    SpelledIsLiteral(s, j, " total=");
    SpelledIsLiteral(s, t, r.total);
    RecordWithTotal(r);
    MatchTotalOf(s, j, RecordOf(r.kind, AvgsOf(r), ""), r.total, r, t, e);
  }

  /** The four pieces of a record rendered at `i`, each spelled where it lies. */
  lemma RenderedPieces(s: string, i: nat, r: Record, j: nat, t: nat, e: nat)
    requires RenderedAt(s, i, r, j, e) && t == j + 7
    ensures i + 4 <= j && t + |r.total| == e
    ensures SpelledAt(s, i, KindText(r.kind))
    ensures SpelledAt(s, i + 4, AveragesText(AvgTags, AvgsOf(r)))
    ensures SpelledAt(s, j, " total=") && SpelledAt(s, t, r.total)
  {
    var k := KindText(r.kind);
    var av := AveragesText(AvgTags, AvgsOf(r));
    assert |k| == 4;
    SpelledSplit(s, i, k + av + " total=", r.total, t);
    SpelledSplit(s, i, k + av, " total=", j);
    SpelledSplit(s, i, k, av, i + 4);
  }

  /** Setting the total of the record rebuilt from `r`'s kind and averages gives back `r`. */
  lemma RecordWithTotal(r: Record)
    ensures RecordOf(r.kind, AvgsOf(r), "").(total := r.total) == r
  {
    var a := AvgsOf(r);
    assert a[0] == (r.avg10Int, r.avg10Frac) && a[1] == (r.avg60Int, r.avg60Frac);
    assert a[2] == (r.avg300Int, r.avg300Frac);
  }

  /** The kind written at `i` is the kind `KindAt` reads. */
  lemma KindAtOf(s: string, i: nat, k: Kind)
    requires LiteralAt(s, i, KindText(k))
    ensures KindAt(s, i) == Some(k) && i + 4 <= |s|
  {
    if k.FullKind? {
      assert s[i..i + 4][0] == 'f';
    }
  }

  /** `MatchAt` is the kind, then the averages, then the total. */
  lemma MatchAtOf(s: string, i: nat, k: Kind, avs: seq<(string, string)>, j: nat, x: Option<(Record, nat)>)
    requires i + 4 <= |s| && KindAt(s, i) == Some(k) && |avs| == 3
    requires AveragesAt(s, i + 4, AvgTags) == Some((avs, j))
    requires MatchTotal(s, j, RecordOf(k, avs, "")) == x
    ensures MatchAt(s, i) == x
  {
  }

  /** The labels of the three averages each start with a space. */
  lemma TagsOkAvg()
    ensures TagsOk(AvgTags)
  {
    forall n | 0 <= n < |AvgTags| ensures |AvgTags[n]| > 0 && !IsDigit(AvgTags[n][0]) {
      assert AvgTags[n][0] == ' ';
    }
  }

  /** A non-empty digit run written at `t` and not followed by a digit is where `DigitRunEnd` stops. */
  lemma TotalRunAt(s: string, t: nat, total: string, e: nat)
    requires LiteralAt(s, t, total) && e == t + |total|
    requires |total| > 0 && AllDigits(total)
    requires e == |s| || !IsDigit(s[e])
    ensures DigitRunEnd(s, t) == e && t < e
  {
    DigitRunIsMaximal(s, t, e);
  }

  /** A ` total=` tag followed by the digit run `total`, and then by no digit, completes the record with it. */
  lemma MatchTotalOf(s: string, j: nat, p: Record, total: string, r: Record, t: nat, e: nat)
    requires LiteralAt(s, j, " total=") && t == j + 7
    requires LiteralAt(s, t, total) && e == t + |total|
    requires |total| > 0 && AllDigits(total)
    requires e == |s| || !IsDigit(s[e])
    requires p.(total := total) == r
    ensures MatchTotal(s, j, p) == Some((r, e))
  {
    TotalRunAt(s, t, total, e);
    assert s[t..e] == total;
  }

  /** A ` total=` tag followed by a digit run completes the record with that run. */
  lemma MatchTotalAt(s: string, j: nat, p: Record, e: nat)
    requires j + 7 <= |s| && s[j..j + 7] == " total="
    requires DigitRunEnd(s, j + 7) == e && j + 7 < e
    ensures MatchTotal(s, j, p) == Some((p.(total := s[j + 7..e]), e))
  {
  }

  lemma FieldAtComplete(s: string, j: nat, tag: string, ip: string, fp: string, e2: nat)
    requires AllDigits(ip) && AllDigits(fp) && |ip| > 0 && |fp| > 0
    requires SpelledAt(s, j, FieldText(tag, ip, fp)) && e2 == j + |FieldText(tag, ip, fp)|
    requires e2 == |s| || !IsDigit(s[e2])
    ensures FieldAt(s, j, tag) == Some((ip, fp, e2))
  {
    SpelledIsLiteral(s, j, FieldText(tag, ip, fp));
    var d := j + |tag|;
    var e1 := d + |ip|;
    SlicePeel(s, j, e2, tag + ip + ".", fp);
    SlicePeel(s, j, e1 + 1, tag + ip, ".");
    SlicePeel(s, j, e1, tag, ip);
    assert s[e1] == s[e1..e1 + 1][0];
    DigitRunIsMaximal(s, d, e1);
    DigitRunIsMaximal(s, e1 + 1, e2);
  }

  /** The `some` part comes from the last `some` record, the `full` part from the last `full` record. */
  lemma {:induction false} CollectLastWins(ms: seq<Record>, acc: MemPsi)
    requires forall i :: 0 <= i < |ms| ==> WellFormed(ms[i])
    ensures var r := Collect(ms, acc);
      && (LastOfKind(ms, SomeKind).Some? ==>
            WellFormed(LastOfKind(ms, SomeKind).value) && r.some == Metrics(LastOfKind(ms, SomeKind).value))
      && (LastOfKind(ms, SomeKind).None? ==> r.some == acc.some)
      && (LastOfKind(ms, FullKind).Some? ==>
            WellFormed(LastOfKind(ms, FullKind).value) && r.full == Metrics(LastOfKind(ms, FullKind).value))
      && (LastOfKind(ms, FullKind).None? ==> r.full == acc.full)
    decreases |ms|
  {
    if |ms| > 0 {
      var init := ms[..|ms| - 1];
      var last := ms[|ms| - 1];
      CollectSnoc(init, last, acc);
      assert init + [last] == ms;
      assert forall i :: 0 <= i < |init| ==> WellFormed(init[i]) by {
        forall i | 0 <= i < |init| ensures WellFormed(init[i]) {
          assert init[i] == ms[i];
        }
      }
      CollectLastWins(init, acc);
    }
  }

  /** Collecting one more record acts on the result of collecting the ones before it. */
  lemma {:induction false} CollectSnoc(ms: seq<Record>, m: Record, acc: MemPsi)
    requires forall i :: 0 <= i < |ms| ==> WellFormed(ms[i])
    requires WellFormed(m)
    ensures forall i :: 0 <= i < |ms + [m]| ==> WellFormed((ms + [m])[i])
    ensures var r := Collect(ms, acc);
      Collect(ms + [m], acc) == (if m.kind == SomeKind then r.(some := Metrics(m)) else r.(full := Metrics(m)))
    decreases |ms|
  {
    assert forall i :: 0 <= i < |ms + [m]| ==> WellFormed((ms + [m])[i]) by {
      forall i | 0 <= i < |ms + [m]| ensures WellFormed((ms + [m])[i]) {
        if i < |ms| { assert (ms + [m])[i] == ms[i]; }
      }
    }
    if |ms| > 0 {
      var h := Metrics(ms[0]);
      var acc' := if ms[0].kind == SomeKind then acc.(some := h) else acc.(full := h);
      assert (ms + [m])[1..] == ms[1..] + [m];
      assert forall i :: 0 <= i < |ms[1..]| ==> WellFormed(ms[1..][i]) by {
        forall i | 0 <= i < |ms[1..]| ensures WellFormed(ms[1..][i]) {
          assert ms[1..][i] == ms[i + 1];
        }
      }
      CollectSnoc(ms[1..], m, acc');
    } else {
      assert ms + [m] == [m];
    }
  }

  /**
   * `parseMemPsiOutput` fails exactly when fewer than two records match; on
   * success each part holds the metrics of the last record of its kind, or
   * zeros when no record of that kind matched.
   */
  lemma ParseMemPsiOutputSpec(output: string)
    ensures var ms := FindAll(output, 0);
      ParseMemPsiOutput(output).Err? <==> |ms| < 2
    ensures var ms := FindAll(output, 0);
      ParseMemPsiOutput(output).Ok? ==>
        var psi := ParseMemPsiOutput(output).value;
        && (LastOfKind(ms, SomeKind).Some? ==>
              WellFormed(LastOfKind(ms, SomeKind).value) && psi.some == Metrics(LastOfKind(ms, SomeKind).value))
        && (LastOfKind(ms, SomeKind).None? ==> psi.some == ZeroMetrics)
        && (LastOfKind(ms, FullKind).Some? ==>
              WellFormed(LastOfKind(ms, FullKind).value) && psi.full == Metrics(LastOfKind(ms, FullKind).value))
        && (LastOfKind(ms, FullKind).None? ==> psi.full == ZeroMetrics)
  {
    var ms := FindAll(output, 0);
    if |ms| >= 2 {
      FindAllWellFormed(output, 0);
      CollectLastWins(ms, MemPsi(ZeroMetrics, ZeroMetrics));
    }
  }

  /** Records of only the `some` kind, two or more of them, are accepted with a zero `full` part. */
  lemma SomeOnlyAccepted(output: string)
    requires |FindAll(output, 0)| >= 2
    requires forall i :: 0 <= i < |FindAll(output, 0)| ==> FindAll(output, 0)[i].kind == SomeKind
    ensures ParseMemPsiOutput(output).Ok?
    ensures ParseMemPsiOutput(output).value.full == ZeroMetrics
  {
    NoneOfKind(FindAll(output, 0), FullKind);
    ParseMemPsiOutputSpec(output);
  }

  lemma {:induction false} NoneOfKind(ms: seq<Record>, k: Kind)
    requires forall i :: 0 <= i < |ms| ==> ms[i].kind != k
    ensures LastOfKind(ms, k).None?
    decreases |ms|
  {
    if |ms| > 0 {
      var init := ms[..|ms| - 1];
      assert forall i :: 0 <= i < |init| ==> init[i].kind != k by {
        forall i | 0 <= i < |init| ensures init[i].kind != k {
          assert init[i] == ms[i];
        }
      }
      NoneOfKind(init, k);
    }
  }
}
