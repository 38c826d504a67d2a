/** The two regular expressions `LogEntrySheet` applies to an exercise's
    `defaultScheme` (a text such as "3x8-12"), written as scanners with the
    leftmost, greedy, backtracking semantics of `String.prototype.match`:

      seed  /(\d+)x(\d+(?:-\d+)?)/   groups 1 and 2
      hint  /(\d+)x(\d+)-?(\d+)?/    groups 1, 2 and the optional 3

    Neither is anchored, so a match may start anywhere. Group 1 is always
    the whole digit run in front of the `x` (a shorter run would be followed
    by a digit, not by `x`), and each later `\d+` takes the longest run. */
module Scheme {
  import opened Optional
  import opened JsText

  /** Groups 1 and 2 of the seed expression, and where the match starts. */
  datatype SeedCaptures = SeedCaptures(start: nat, sets: string, reps: string)

  /** Groups 1, 2 and 3 of the hint expression, and where the match starts. */
  datatype HintCaptures = HintCaptures(start: nat, sets: string, minReps: string, maxReps: Option<string>)

  /** A non-empty digit string. */
  predicate IsNumber(s: string) {
    |s| > 0 && AllDigits(s)
  }

  /** The lengths of group 1 and of the digit run after the `x` when
      `(\d+)x\d+`, the part both expressions begin with, matches at `i`. */
  function Lead(s: string, i: nat): (r: Option<(nat, nat)>)
    requires i <= |s|
    ensures r.Some? ==> var (a, b) := r.value;
              && 0 < a && 0 < b && i + a + 1 + b <= |s| && s[i + a] == 'x'
              && (forall k :: i <= k < i + a ==> IsDigit(s[k]))
              && (forall k :: i + a + 1 <= k < i + a + 1 + b ==> IsDigit(s[k]))
              && (i + a + 1 + b == |s| || !IsDigit(s[i + a + 1 + b]))
  {
    var a := DigitRun(s, i);
    if a == 0 || i + a == |s| || s[i + a] != 'x' then None
    else
      var b := DigitRun(s, i + a + 1);
      if b == 0 then None else Some((a, b))
  }

  /** How much `(?:-\d+)?` consumes at `k`: a `-` and the digit run after
      it when that run is not empty, otherwise nothing. */
  function RangeTail(s: string, k: nat): (t: nat)
    requires k <= |s|
    ensures k + t <= |s|
  {
    if k < |s| && s[k] == '-' && DigitRun(s, k + 1) > 0 then 1 + DigitRun(s, k + 1) else 0
  }

  /** What `-?(\d+)?` captures in its group at `k`: `-?` takes a `-` when
      there is one, and the group then takes the digit run after it. */
  function UpperGroup(s: string, k: nat): (g: Option<string>)
    requires k <= |s|
    ensures g.Some? ==> IsNumber(g.value)
  {
    var dash := if k < |s| && s[k] == '-' then 1 else 0;
    var c := DigitRun(s, k + dash);
    if c > 0 then Some(s[k + dash..k + dash + c]) else None
  }

  /** The seed expression tried at position `i` only. */
  function SeedAt(s: string, i: nat): (r: Option<SeedCaptures>)
    requires i <= |s|
    ensures r.Some? <==> Lead(s, i).Some?
    ensures r.Some? ==> r.value.start == i && IsNumber(r.value.sets)
  {
    match Lead(s, i)
    case None => None
    case Some((a, b)) =>
      var j := i + a + 1;
      var k := j + b;
      Some(SeedCaptures(i, s[i..i + a], s[j..k + RangeTail(s, k)]))
  }

  /** The hint expression tried at position `i` only. */
  function HintAt(s: string, i: nat): (r: Option<HintCaptures>)
    requires i <= |s|
    ensures r.Some? <==> Lead(s, i).Some?
    ensures r.Some? ==> r.value.start == i && IsNumber(r.value.sets) && IsNumber(r.value.minReps)
    ensures r.Some? && r.value.maxReps.Some? ==> IsNumber(r.value.maxReps.value)
  {
    match Lead(s, i)
    case None => None
    case Some((a, b)) =>
      var j := i + a + 1;
      var k := j + b;
      Some(HintCaptures(i, s[i..i + a], s[j..k], UpperGroup(s, k)))
  }

  /** Leftmost match of the seed expression at or after `from`. */
  function FindSeed(s: string, from: nat): (r: Option<SeedCaptures>)
    requires from <= |s|
    ensures r.Some? ==> from <= r.value.start <= |s| && SeedAt(s, r.value.start) == r
    ensures r.Some? ==> forall j :: from <= j < r.value.start ==> SeedAt(s, j).None?
    ensures r.None? <==> forall j :: from <= j <= |s| ==> SeedAt(s, j).None?
    decreases |s| - from
  {
    if SeedAt(s, from).Some? then SeedAt(s, from)
    else if from == |s| then None
    else FindSeed(s, from + 1)
  }

  /** Leftmost match of the hint expression at or after `from`. */
  function FindHint(s: string, from: nat): (r: Option<HintCaptures>)
    requires from <= |s|
    ensures r.Some? ==> from <= r.value.start <= |s| && HintAt(s, r.value.start) == r
    ensures r.Some? ==> forall j :: from <= j < r.value.start ==> HintAt(s, j).None?
    ensures r.None? <==> forall j :: from <= j <= |s| ==> HintAt(s, j).None?
    decreases |s| - from
  {
    if HintAt(s, from).Some? then HintAt(s, from)
    else if from == |s| then None
    else FindHint(s, from + 1)
  }

  /** `scheme.match(/(\d+)x(\d+(?:-\d+)?)/)`. */
  function MatchSeed(scheme: string): Option<SeedCaptures> {
    FindSeed(scheme, 0)
  }

  /** `scheme.match(/(\d+)x(\d+)-?(\d+)?/)`. */
  function MatchHint(scheme: string): Option<HintCaptures> {
    FindHint(scheme, 0)
  }

  /** The seed's rep group spelled from the hint's groups 2 and 3. */
  function RepsText(c: HintCaptures): string {
    c.minReps + if c.maxReps.Some? then "-" + c.maxReps.value else ""
  }

  /** At each position the two expressions match alike: the same group 1,
      and the seed's group 2 is the hint's groups 2 and 3 joined by `-`. */
  lemma {:induction false} SeedHintAgreeAt(s: string, i: nat)
    requires i <= |s|
    ensures SeedAt(s, i).Some? <==> HintAt(s, i).Some?
    ensures SeedAt(s, i).Some? ==>
              SeedAt(s, i).value.sets == HintAt(s, i).value.sets
              && SeedAt(s, i).value.reps == RepsText(HintAt(s, i).value)
  {
    if Lead(s, i).Some? {
      var (a, b) := Lead(s, i).value;
      var j := i + a + 1;
      var k := j + b;
      var t := RangeTail(s, k);
      TailAgree(s, k);
      SplitAt(s, j, k, k + t);
    }
  }

  /** After a digit run, `(?:-\d+)?` consumes exactly the `-` and the text of
      the group of `-?(\d+)?`, or nothing when that group is empty. */
  lemma {:induction false} TailAgree(s: string, k: nat)
    requires k <= |s|
    requires k == |s| || !IsDigit(s[k])
    ensures s[k..k + RangeTail(s, k)] == if UpperGroup(s, k).Some? then "-" + UpperGroup(s, k).value else ""
  {
    if k < |s| && s[k] == '-' && DigitRun(s, k + 1) > 0 {
      var c := DigitRun(s, k + 1);
      SplitAt(s, k, k + 1, k + 1 + c);
      assert s[k..k + 1] == "-";
    } else if k < |s| && s[k] == '-' {
    } else {
      assert DigitRun(s, k) == 0;
    }
  }

  lemma SplitAt(s: string, lo: nat, mid: nat, hi: nat)
    requires lo <= mid <= hi <= |s|
    ensures s[lo..hi] == s[lo..mid] + s[mid..hi]
  {
  }

  /** The two expressions find their leftmost matches at the same place and
      agree on what they capture there. */
  lemma {:induction false} SeedHintAgree(s: string, from: nat)
    requires from <= |s|
    ensures FindSeed(s, from).Some? <==> FindHint(s, from).Some?
    ensures FindSeed(s, from).Some? ==>
              FindSeed(s, from).value.start == FindHint(s, from).value.start
              && FindSeed(s, from).value.sets == FindHint(s, from).value.sets
              && FindSeed(s, from).value.reps == RepsText(FindHint(s, from).value)
    decreases |s| - from
  {
    SeedHintAgreeAt(s, from);
    if SeedAt(s, from).None? && from < |s| {
      SeedHintAgree(s, from + 1);
    }
  }

  /** The scheme text for `sets` sets of `minReps` (to `maxReps`) repetitions. */
  function Render(sets: nat, minReps: nat, maxReps: Option<nat>): string {
    DecimalString(sets) + "x" + DecimalString(minReps)
      + if maxReps.Some? then "-" + DecimalString(maxReps.value) else ""
  }

  /** `(\d+)x\d+` matches a digit string, an `x` and a digit string at the
      start, taking each string whole when a non-digit (or nothing) follows. */
  lemma LeadOn(d1: string, d2: string, rest: string)
    requires IsNumber(d1) && IsNumber(d2)
    requires rest == [] || !IsDigit(rest[0])
    ensures Lead(d1 + "x" + d2 + rest, 0) == Some((|d1|, |d2|))
  {
    var s := d1 + "x" + d2 + rest;
    DigitRunBetween([], d1, "x" + d2 + rest);
    assert [] + d1 + ("x" + d2 + rest) == s;
    DigitRunBetween(d1 + "x", d2, rest);
    assert s[|d1|] == 'x';
  }

  /** `-?(\d+)?` at the end of the text captures nothing. */
  lemma UpperGroupAtEnd(s: string)
    ensures UpperGroup(s, |s|) == None
  {
  }

  /** `-?(\d+)?` before `-` and a final digit string captures that string. */
  lemma UpperGroupDash(p: string, d: string)
    requires IsNumber(d)
    ensures UpperGroup(p + "-" + d, |p|) == Some(d)
  {
    var s := p + "-" + d;
    assert s[|p|] == '-';
    DigitRunBetween(p + "-", d, []);
    assert p + "-" + d + [] == s;
    assert s[|p| + 1..|p| + 1 + |d|] == d;
  }

  /** The text after the reps number: `-` and the upper bound, if any. */
  function UpperText(upper: Option<string>): string {
    if upper.Some? then "-" + upper.value else ""
  }

  /** The hint expression at the start of "S" "x" "LO" followed by "-HI" or
      nothing, for digit strings S, LO and HI. */
  lemma {:induction false} HintAtOn(d1: string, d2: string, upper: Option<string>)
    requires IsNumber(d1) && IsNumber(d2) && (upper.Some? ==> IsNumber(upper.value))
    ensures HintAt(d1 + "x" + d2 + UpperText(upper), 0) == Some(HintCaptures(0, d1, d2, upper))
  {
    var tail := UpperText(upper);
    var s := d1 + "x" + d2 + tail;
    LeadOn(d1, d2, tail);
    var k := |d1| + 1 + |d2|;
    assert s[0..|d1|] == d1 && s[|d1| + 1..k] == d2;
    if upper.Some? {
      assert s == (d1 + "x" + d2) + "-" + upper.value;
      UpperGroupDash(d1 + "x" + d2, upper.value);
    } else {
      UpperGroupAtEnd(s);
    }
  }

  /** The hint expression at the first character of a rendered scheme. */
  lemma {:induction false} HintAtRendered(sets: nat, minReps: nat, maxReps: Option<nat>)
    ensures HintAt(Render(sets, minReps, maxReps), 0)
            == Some(HintCaptures(0, DecimalString(sets), DecimalString(minReps),
                                 if maxReps.Some? then Some(DecimalString(maxReps.value)) else None))
  {
    var upper := if maxReps.Some? then Some(DecimalString(maxReps.value)) else None;
    assert Render(sets, minReps, maxReps) == DecimalString(sets) + "x" + DecimalString(minReps) + UpperText(upper);
    HintAtOn(DecimalString(sets), DecimalString(minReps), upper);
  }

  /** Round trip: the hint expression reads a rendered scheme back, group by
      group, from its first character. */
  lemma {:induction false} HintRoundTrip(sets: nat, minReps: nat, maxReps: Option<nat>)
    ensures MatchHint(Render(sets, minReps, maxReps))
            == Some(HintCaptures(0, DecimalString(sets), DecimalString(minReps),
                                 if maxReps.Some? then Some(DecimalString(maxReps.value)) else None))
  {
    HintAtRendered(sets, minReps, maxReps);
  }

  /** Round trip for the seed expression: group 1 is the sets number, group 2
      the repetition range exactly as rendered. */
  lemma {:induction false} SeedRoundTrip(sets: nat, minReps: nat, maxReps: Option<nat>)
    ensures var text := Render(sets, minReps, maxReps);
            MatchSeed(text) == Some(SeedCaptures(0, DecimalString(sets), text[|DecimalString(sets)| + 1..]))
  {
    var s := Render(sets, minReps, maxReps);
    HintAtRendered(sets, minReps, maxReps);
    SeedHintAgreeAt(s, 0);
    RenderedReps(sets, minReps, maxReps);
    assert MatchSeed(s) == SeedAt(s, 0);
  }

  /** Everything after the `x` of a rendered scheme is its repetition range. */
  lemma RenderedReps(sets: nat, minReps: nat, maxReps: Option<nat>)
    ensures Render(sets, minReps, maxReps)[|DecimalString(sets)| + 1..]
            == DecimalString(minReps) + if maxReps.Some? then "-" + DecimalString(maxReps.value) else ""
  {
    var d1 := DecimalString(sets);
    var rest := DecimalString(minReps) + if maxReps.Some? then "-" + DecimalString(maxReps.value) else "";
    assert Render(sets, minReps, maxReps) == d1 + "x" + rest;
  }
}
