/** The `--sample` selector of `mdplot/ssf.py`: the string is split at ':'
    and every field read with `int`; one field `a` picks sample `a`, two
    fields `a:b` pick the slice `a:b` of the trajectory. */
module Selector {
  import opened Wrappers
  import PySeq

  /** `re.split(':', s)`: the fields between colons, at least one. */
  function Split(s: string): (fields: seq<string>)
    ensures |fields| >= 1
    ensures forall k :: 0 <= k < |fields| ==> ':' !in fields[k]
  {
    if |s| == 0 then [""]
    else
      var rest := Split(s[1..]);
      if s[0] == ':' then [""] + rest
      else [[s[0]] + rest[0]] + rest[1..]
  }

  /** The inverse of `Split`: the fields joined with ':'. */
  function Join(fields: seq<string>): string
    requires |fields| >= 1
  {
    if |fields| == 1 then fields[0] else fields[0] + ":" + Join(fields[1..])
  }

  /** Splitting loses nothing: joining the fields gives back the string. */
  lemma {:induction false} JoinSplit(s: string)
    ensures Join(Split(s)) == s
  {
    if |s| > 0 {
      JoinSplit(s[1..]);
      var rest := Split(s[1..]);
      if s[0] != ':' {
        if |rest| == 1 {
          assert Split(s) == [[s[0]] + rest[0]];
        } else {
          assert Split(s)[1..] == rest[1..];
        }
      }
    }
  }

  /** A field free of ':' followed by ':' splits off as the first field. */
  lemma {:induction false} SplitFirst(a: string, b: string)
    requires ':' !in a
    ensures Split(a + ":" + b) == [a] + Split(b)
  {
    if |a| > 0 {
      SplitFirst(a[1..], b);
      var t := a + ":" + b;
      assert t[0] == a[0] && a[0] != ':';
      assert t[1..] == a[1..] + ":" + b;
      assert [a[0]] + a[1..] == a;
    } else {
      assert (a + ":" + b)[1..] == b;
    }
  }

  lemma {:induction false} SplitField(a: string)
    requires ':' !in a
    ensures Split(a) == [a]
  {
    if |a| > 0 {
      SplitField(a[1..]);
      assert a[0] != ':';
      assert [a[0]] + a[1..] == a;
    }
  }

  /** Splitting a join of colon-free fields gives back the fields. */
  lemma {:induction false} SplitJoin(fields: seq<string>)
    requires |fields| >= 1
    requires forall k :: 0 <= k < |fields| ==> ':' !in fields[k]
    ensures Split(Join(fields)) == fields
  {
    if |fields| == 1 {
      SplitField(fields[0]);
    } else {
      SplitJoin(fields[1..]);
      SplitFirst(fields[0], Join(fields[1..]));
    }
  }

  predicate IsDigit(c: char) { '0' <= c <= '9' }

  predicate AllDigits(s: string) { forall k :: 0 <= k < |s| ==> IsDigit(s[k]) }

  /** The value of a string of decimal digits. */
  function DigitsValue(s: string): nat
    requires AllDigits(s)
  {
    if |s| == 0 then 0 else DigitsValue(s[..|s| - 1]) * 10 + (s[|s| - 1] as int - '0' as int)
  }

  /** Python's `int(x)` on a field: an optional sign and at least one decimal
      digit; anything else raises ValueError, modelled as `None`. */
  function ParseInt(s: string): Option<int>
  {
    if |s| > 0 && (s[0] == '-' || s[0] == '+') then
      var digits := s[1..];
      if |digits| > 0 && AllDigits(digits) then
        Some(if s[0] == '-' then -(DigitsValue(digits) as int) else DigitsValue(digits))
      else None
    else if |s| > 0 && AllDigits(s) then Some(DigitsValue(s))
    else None
  }

  /** The decimal digits of `n`, without leading zeros. */
  function ShowNat(n: nat): (s: string)
    ensures |s| > 0 && AllDigits(s)
  {
    var d := [(('0' as int) + n % 10) as char];
    if n < 10 then d else ShowNat(n / 10) + d
  }

  /** `str(i)`: decimal digits with a leading '-' for negative numbers. */
  function ShowInt(i: int): string
  {
    if i < 0 then "-" + ShowNat(-i) else ShowNat(i)
  }

  lemma {:induction false} DigitsOfShowNat(n: nat)
    ensures DigitsValue(ShowNat(n)) == n
  {
    var s := ShowNat(n);
    if n >= 10 {
      DigitsOfShowNat(n / 10);
      assert s[..|s| - 1] == ShowNat(n / 10);
    }
  }

  /** `int(str(i)) == i`. */
  lemma ParseShowInt(i: int)
    ensures ParseInt(ShowInt(i)) == Some(i)
  {
    if i < 0 {
      DigitsOfShowNat(-i);
      assert ShowInt(i)[1..] == ShowNat(-i);
    } else {
      DigitsOfShowNat(i);
    }
  }

  /** `[int(x) for x in fields]`: `None` as soon as one field is not an
      integer (the ValueError propagates). */
  function ParseAll(fields: seq<string>): (r: Option<seq<int>>)
    ensures r.Some? <==> forall k :: 0 <= k < |fields| ==> ParseInt(fields[k]).Some?
    ensures r.Some? ==> |r.value| == |fields|
    ensures r.Some? ==> forall k :: 0 <= k < |fields| ==> Some(r.value[k]) == ParseInt(fields[k])
  {
    if |fields| == 0 then Some([])
    else
      match (ParseInt(fields[0]), ParseAll(fields[1..]))
      case (Some(x), Some(xs)) => Some([x] + xs)
      case _ => None
  }

  /** A parsed selector: one sample, or a slice of samples. */
  datatype Selector = Single(index: int) | Span(start: int, stop: int)

  datatype SelectorError =
    | NotAnInteger       // `int` raised ValueError
    | SamplesUnbound     // no branch ran, `samples` is never assigned
    | WrongFieldCount    // more than two fields, rejected up front
    | InvalidOffset      // IndexError: 'invalid phase space sample offset'

  /** The selector parse as written: with three or more fields neither
      branch assigns `samples`. */
  function ParseSelectorAsWritten(s: string): (r: Result<Selector, SelectorError>)
    ensures r != Err(WrongFieldCount)
  {
    match ParseAll(Split(s))
    case None => Err(NotAnInteger)
    case Some(idx) =>
      if |idx| == 1 then Ok(Single(idx[0]))
      else if |idx| == 2 then Ok(Span(idx[0], idx[1]))
      else Err(SamplesUnbound)
  }

  /** A selector with three or more integer fields leaves `samples` unbound. */
  lemma AsWrittenLeavesSamplesUnbound()
    ensures ParseSelectorAsWritten("0:1:2") == Err(SamplesUnbound)
  {
    SplitThree();
    ParseThree();
  }

  lemma SplitThree()
    ensures Split("0:1:2") == ["0", "1", "2"]
  {
    SplitField("2");
    SplitFirst("1", "2");
    assert "1" + ":" + "2" == "1:2";
    SplitFirst("0", "1:2");
    assert "0" + ":" + "1:2" == "0:1:2";
  }

  lemma ParseThree()
    ensures ParseAll(["0", "1", "2"]).Some? && |ParseAll(["0", "1", "2"]).value| == 3
  {
    assert ParseInt("0") == Some(0) && ParseInt("1") == Some(1) && ParseInt("2") == Some(2);
  }

  /** The selector parse with the missing case rejected: a string is accepted
      exactly when it has one or two fields, all integers; every other string
      is rejected with a reason. */
  function ParseSelector(s: string): (r: Result<Selector, SelectorError>)
    ensures r.Ok? <==> (|Split(s)| == 1 || |Split(s)| == 2) && ParseAll(Split(s)).Some?
    ensures r == Err(WrongFieldCount) <==> |Split(s)| > 2 && ParseAll(Split(s)).Some?
    ensures r != Err(SamplesUnbound)
  {
    match ParseAll(Split(s))
    case None => Err(NotAnInteger)
    case Some(idx) =>
      if |idx| == 1 then Ok(Single(idx[0]))
      else if |idx| == 2 then Ok(Span(idx[0], idx[1]))
      else Err(WrongFieldCount)
  }

  /** The string form of a selector: `"a"` or `"a:b"`. */
  function Format(sel: Selector): string
  {
    match sel
    case Single(a) => ShowInt(a)
    case Span(a, b) => ShowInt(a) + ":" + ShowInt(b)
  }

  lemma NoColonInShowInt(i: int)
    ensures ':' !in ShowInt(i)
  {
    var s := ShowInt(i);
    if i >= 0 {
      assert AllDigits(s);
    } else {
      assert AllDigits(s[1..]);
      assert forall k :: 1 <= k < |s| ==> s[k] == s[1..][k - 1];
    }
  }

  /** Every selector reads back from its string form: `"a"` selects sample
      `a` and `"a:b"` selects the slice `a:b`. */
  lemma ParseFormat(sel: Selector)
    ensures ParseSelector(Format(sel)) == Ok(sel)
    ensures ParseSelectorAsWritten(Format(sel)) == Ok(sel)
  {
    match sel
    case Single(a) =>
      NoColonInShowInt(a);
      SplitField(ShowInt(a));
      ParseShowInt(a);
    case Span(a, b) =>
      NoColonInShowInt(a);
      NoColonInShowInt(b);
      SplitField(ShowInt(b));
      SplitFirst(ShowInt(a), ShowInt(b));
      ParseShowInt(a);
      ParseShowInt(b);
  }

  /** The trajectory positions a selector picks from `count` samples:
      `array([trajectory.r[a]])` for one index, which raises IndexError out of
      range, and `trajectory.r[a:b]`, which never raises and may be empty. */
  function SelectSamples(sel: Selector, count: nat): (r: Result<seq<nat>, SelectorError>)
    ensures r.Ok? ==> forall k :: 0 <= k < |r.value| ==> r.value[k] < count
    ensures sel.Single? ==> (r.Ok? <==> -(count as int) <= sel.index < count)
    ensures sel.Single? && 0 <= sel.index < count ==> r == Ok([sel.index])
    ensures sel.Span? ==> r.Ok?
    ensures sel.Span? && 0 <= sel.start <= sel.stop <= count ==> r == Ok(PySeq.Range(sel.start, sel.stop))
    ensures sel.Single? && r.Ok? ==> |r.value| == 1 && r.value[0] == PySeq.Resolve(sel.index, count)
    ensures sel.Span? ==> forall k: nat :: k in r.value <==>
      k < count && PySeq.Resolve(sel.start, count) <= k < PySeq.Resolve(sel.stop, count)
    ensures sel.Span? ==> forall k :: 0 < k < |r.value| ==> r.value[k] == r.value[k - 1] + 1
  {
    match sel
    case Single(a) =>
      (match PySeq.Index(a, count)
       case None => Err(InvalidOffset)
       case Some(i) => Ok([i]))
    case Span(a, b) => Ok(PySeq.Slice(a, b, count))
  }
}
