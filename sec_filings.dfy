/**
 * Fetching a company's filing list from the EDGAR submissions API: the CIK
 * padded to ten digits, the filings of the last 26 × 30 days picked out of
 * the parallel arrays of `filings.recent`, and the per-form summary ordered
 * by count.
 */
module SecFilings {
  import opened Text
  import opened Sorting
  import opened Numerals

  /** The look-back window, "about 26 months". */
  const WindowDays := 26 * 30

  const SecondsPerDay := 86400

  /** 780 days of 86400 seconds. */
  const WindowSeconds := 67392000

  const CikWidth := 10

  /**
   * The parallel arrays of `filings.recent`. A filing date is its day number
   * (days since 1970-01-01); the arrays may differ in length.
   */
  datatype Recent = Recent(filingDate: seq<int>, form: seq<string>, accessionNumber: seq<string>,
                           primaryDocument: seq<string>, primaryDocDescription: seq<string>)

  datatype FilingRecord = FilingRecord(filingDate: int, form: string, accessionNumber: string,
                                       primaryDocument: string, primaryDocDescription: string)

  /** A kept index past the end of one of the arrays raises IndexError. */
  datatype Outcome = Filtered(filings: seq<FilingRecord>) | Raised

  /**
   * `start_date <= filing_date <= end_date`: the filing date is read as
   * midnight, `now` is in seconds since 1970-01-01 and the start is the same
   * clock time 780 days earlier.
   */
  predicate InWindow(day: int, now: int)
  {
    now - WindowSeconds <= day * 86400 <= now
  }

  /** In whole days: today is kept; the first day of the window only at exactly midnight. */
  lemma InWindowByDay(day: int, now: int)
    ensures InWindow(day, now) <==>
            now / SecondsPerDay - WindowDays + (if now % SecondsPerDay == 0 then 0 else 1) <= day <= now / SecondsPerDay
  {
    var today := now / SecondsPerDay;
    var secs := now % SecondsPerDay;
    assert now == today * SecondsPerDay + secs && 0 <= secs < SecondsPerDay;
    if day <= today - WindowDays - 1 {
      assert day * SecondsPerDay <= (today - WindowDays - 1) * SecondsPerDay;
    }
    if day >= today + 1 {
      assert day * SecondsPerDay >= (today + 1) * SecondsPerDay;
    }
    if day == today - WindowDays {
      assert day * SecondsPerDay == today * SecondsPerDay - WindowDays * SecondsPerDay;
    }
    if today - WindowDays + 1 <= day <= today {
      assert (today - WindowDays + 1) * SecondsPerDay <= day * SecondsPerDay <= today * SecondsPerDay;
    }
  }

  /** The indices below `n` whose date is in the window, in ascending order. */
  function Kept(dates: seq<int>, now: int, n: nat): (r: seq<nat>)
    requires n <= |dates|
    ensures forall k :: 0 <= k < |r| ==> r[k] < n && InWindow(dates[r[k]], now)
    ensures forall i :: 0 <= i < n && InWindow(dates[i], now) ==> i in r
    ensures forall k, l :: 0 <= k < l < |r| ==> r[k] < r[l]
  {
    if n == 0 then []
    else Kept(dates, now, n - 1) + (if InWindow(dates[n - 1], now) then [n - 1] else [])
  }

  /** Index `i` of every array the record reads without a default. */
  predicate Complete(recent: Recent, i: nat)
  {
    i < |recent.filingDate| && i < |recent.form| && i < |recent.accessionNumber| && i < |recent.primaryDocument|
  }

  /** The record built from index `i`; a missing description is ''. */
  function RecordAt(recent: Recent, i: nat): FilingRecord
    requires Complete(recent, i)
  {
    FilingRecord(recent.filingDate[i], recent.form[i], recent.accessionNumber[i], recent.primaryDocument[i],
                 if i < |recent.primaryDocDescription| then recent.primaryDocDescription[i] else "")
  }

  function RecordsAt(recent: Recent, ks: seq<nat>): (r: seq<FilingRecord>)
    requires forall k :: 0 <= k < |ks| ==> Complete(recent, ks[k])
    ensures |r| == |ks|
    ensures forall k :: 0 <= k < |ks| ==> r[k] == RecordAt(recent, ks[k])
  {
    if |ks| == 0 then [] else RecordsAt(recent, ks[..|ks| - 1]) + [RecordAt(recent, ks[|ks| - 1])]
  }

  /** An in-window date at an index some other array lacks. */
  predicate RaisesIndexError(recent: Recent, now: int)
  {
    exists i :: 0 <= i < |recent.filingDate| && InWindow(recent.filingDate[i], now) && !Complete(recent, i)
  }

  /** `filter_filings`, as a whole: the in-window records in source order, or IndexError. */
  function FilterFilings(recent: Recent, now: int): Outcome
  {
    if RaisesIndexError(recent, now) then Raised
    else Filtered(RecordsAt(recent, Kept(recent.filingDate, now, |recent.filingDate|)))
  }

  /** Every in-window index below `n` can be read from all the arrays. */
  ghost predicate CompleteBelow(recent: Recent, now: int, n: nat)
  {
    forall j :: 0 <= j < n && j < |recent.filingDate| && InWindow(recent.filingDate[j], now) ==> Complete(recent, j)
  }

  /** Every kept index below `n` can be read from all the arrays. */
  ghost predicate KeptReadable(recent: Recent, now: int, n: nat)
    requires n <= |recent.filingDate|
  {
    forall k :: 0 <= k < |Kept(recent.filingDate, now, n)| ==> Complete(recent, Kept(recent.filingDate, now, n)[k])
  }

  lemma KeptComplete(recent: Recent, now: int, n: nat)
    requires n <= |recent.filingDate|
    requires CompleteBelow(recent, now, n)
    ensures KeptReadable(recent, now, n)
  {
  }

  /** One more index extends the kept records by that index's record, when it is in the window. */
  lemma FilterStep(recent: Recent, now: int, i: nat)
    requires i < |recent.filingDate| && CompleteBelow(recent, now, i + 1)
    ensures CompleteBelow(recent, now, i)
    ensures KeptReadable(recent, now, i) && KeptReadable(recent, now, i + 1)
    ensures RecordsAt(recent, Kept(recent.filingDate, now, i + 1)) ==
            if InWindow(recent.filingDate[i], now) then RecordsAt(recent, Kept(recent.filingDate, now, i)) + [RecordAt(recent, i)]
            else RecordsAt(recent, Kept(recent.filingDate, now, i))
  {
    KeptComplete(recent, now, i);
    KeptComplete(recent, now, i + 1);
    var ks := Kept(recent.filingDate, now, i);
    if InWindow(recent.filingDate[i], now) {
      assert Kept(recent.filingDate, now, i + 1) == ks + [i];
      assert (ks + [i])[..|ks|] == ks;
    } else {
      assert Kept(recent.filingDate, now, i + 1) == ks + [];
      assert ks + [] == ks;
    }
  }

  /** `filter_filings`: walks the dates and appends each in-window record. */
  method FilterFilingsLoop(recent: Recent, now: int) returns (r: Outcome)
    ensures r == FilterFilings(recent, now)
  {
    var filtered: seq<FilingRecord> := [];
    for i := 0 to |recent.filingDate|
      invariant CompleteBelow(recent, now, i)
      invariant KeptReadable(recent, now, i)
      invariant filtered == RecordsAt(recent, Kept(recent.filingDate, now, i))
    {
      var day := recent.filingDate[i];
      if InWindow(day, now) && !(i < |recent.form| && i < |recent.accessionNumber| && i < |recent.primaryDocument|) {
        RaisesAt(recent, now, i);
        return Raised;
      }
      FilterStep(recent, now, i);
      if InWindow(day, now) {
        var description := if i < |recent.primaryDocDescription| then recent.primaryDocDescription[i] else "";
        filtered := filtered + [FilingRecord(day, recent.form[i], recent.accessionNumber[i], recent.primaryDocument[i], description)];
      }
    }
    return Filtered(filtered);
  }

  lemma RaisesAt(recent: Recent, now: int, i: nat)
    requires i < |recent.filingDate| && InWindow(recent.filingDate[i], now) && !Complete(recent, i)
    ensures FilterFilings(recent, now) == Raised
  {
  }

  /**
   * The filter succeeds exactly when every in-window index is present in all
   * arrays; it then keeps exactly the in-window filings, in source order,
   * each read from one index of the arrays.
   */
  lemma FilterFilingsKeepsWindow(recent: Recent, now: int)
    ensures FilterFilings(recent, now).Filtered? <==>
            forall i :: 0 <= i < |recent.filingDate| && InWindow(recent.filingDate[i], now) ==> Complete(recent, i)
    ensures FilterFilings(recent, now).Filtered? ==>
            var fs := FilterFilings(recent, now).filings;
            var ks := Kept(recent.filingDate, now, |recent.filingDate|);
            |fs| == |ks| &&
            (forall k :: 0 <= k < |fs| ==> fs[k].filingDate == recent.filingDate[ks[k]] && InWindow(fs[k].filingDate, now)) &&
            (forall k :: 0 <= k < |fs| ==> fs[k].form == recent.form[ks[k]]) &&
            (forall k :: 0 <= k < |fs| ==>
               fs[k].primaryDocDescription == if ks[k] < |recent.primaryDocDescription| then recent.primaryDocDescription[ks[k]] else "")
  {
  }

  /** An index is kept exactly when its date is in the window. */
  lemma KeptIffInWindow(dates: seq<int>, now: int, i: nat)
    requires i < |dates|
    ensures InWindow(dates[i], now) <==> i in Kept(dates, now, |dates|)
  {
    var ks := Kept(dates, now, |dates|);
    if i in ks {
      var k :| 0 <= k < |ks| && ks[k] == i;
    }
  }

  // ---------------------------------------------------------------------------
  // The per-form summary

  /** `Counter(forms).items()`: each form once, in order of first appearance, with its count. */
  function Tally(forms: seq<string>): seq<(string, nat)>
  {
    if |forms| == 0 then [] else Bump(Tally(forms[..|forms| - 1]), forms[|forms| - 1])
  }

  /** `counts[f] += 1`. */
  function Bump(t: seq<(string, nat)>, f: string): (r: seq<(string, nat)>)
  {
    if |t| == 0 then [(f, 1)]
    else if t[0].0 == f then [(f, t[0].1 + 1)] + t[1..]
    else [t[0]] + Bump(t[1..], f)
  }

  function Occurrences(forms: seq<string>, f: string): nat
  {
    if |forms| == 0 then 0 else Occurrences(forms[..|forms| - 1], f) + (if forms[|forms| - 1] == f then 1 else 0)
  }

  function Total(t: seq<(string, nat)>): nat
  {
    if |t| == 0 then 0 else t[0].1 + Total(t[1..])
  }

  predicate Names(t: seq<(string, nat)>, f: string)
  {
    exists k :: 0 <= k < |t| && t[k].0 == f
  }

  function CountOf(t: seq<(string, nat)>, f: string): nat
  {
    if |t| == 0 then 0 else if t[0].0 == f then t[0].1 else CountOf(t[1..], f)
  }

  predicate DistinctNames(t: seq<(string, nat)>)
  {
    forall k, l :: 0 <= k < l < |t| ==> t[k].0 != t[l].0
  }

  lemma {:induction false} BumpFacts(t: seq<(string, nat)>, f: string)
    requires DistinctNames(t)
    ensures DistinctNames(Bump(t, f))
    ensures Total(Bump(t, f)) == Total(t) + 1
    ensures forall g :: CountOf(Bump(t, f), g) == CountOf(t, g) + (if g == f then 1 else 0)
    ensures forall g :: Names(Bump(t, f), g) <==> Names(t, g) || g == f
    ensures forall k :: 0 <= k < |Bump(t, f)| ==> Bump(t, f)[k].1 > 0 || (k < |t| && Bump(t, f)[k] == t[k])
  {
    BumpDistinct(t, f);
    BumpTotal(t, f);
    BumpCount(t, f);
    BumpNames(t, f);
    BumpPositive(t, f);
  }

  lemma DistinctTail(t: seq<(string, nat)>)
    requires |t| > 0 && DistinctNames(t)
    ensures DistinctNames(t[1..]) && !Names(t[1..], t[0].0)
  {
    var rest := t[1..];
    forall k, l | 0 <= k < l < |rest| ensures rest[k].0 != rest[l].0 {
      assert rest[k] == t[k + 1] && rest[l] == t[l + 1];
    }
    forall k | 0 <= k < |rest| ensures rest[k].0 != t[0].0 {
      assert rest[k] == t[k + 1];
    }
  }

  lemma NamesCons(t: seq<(string, nat)>, g: string)
    requires |t| > 0
    ensures Names(t, g) <==> t[0].0 == g || Names(t[1..], g)
  {
    if Names(t, g) && t[0].0 != g {
      var k :| 0 <= k < |t| && t[k].0 == g;
      assert t[1..][k - 1].0 == g;
    }
    if Names(t[1..], g) {
      var k :| 0 <= k < |t[1..]| && t[1..][k].0 == g;
      assert t[k + 1].0 == g;
    }
  }

  lemma {:induction false} BumpTotal(t: seq<(string, nat)>, f: string)
    ensures Total(Bump(t, f)) == Total(t) + 1
  {
    if |t| > 0 {
      var r := Bump(t, f);
      assert r[1..] == (if t[0].0 == f then t[1..] else Bump(t[1..], f));
      if t[0].0 != f {
        BumpTotal(t[1..], f);
      }
    }
  }

  lemma {:induction false} BumpNames(t: seq<(string, nat)>, f: string)
    ensures forall g :: Names(Bump(t, f), g) <==> Names(t, g) || g == f
  {
    var r := Bump(t, f);
    if |t| == 0 {
      forall g ensures Names(r, g) <==> g == f {
        if g == f { assert r[0].0 == g; }
      }
    } else {
      assert r[0].0 == t[0].0;
      assert r[1..] == (if t[0].0 == f then t[1..] else Bump(t[1..], f));
      if t[0].0 != f {
        BumpNames(t[1..], f);
      }
      forall g ensures Names(r, g) <==> Names(t, g) || g == f {
        NamesCons(r, g);
        NamesCons(t, g);
      }
    }
  }

  lemma {:induction false} BumpCount(t: seq<(string, nat)>, f: string)
    requires DistinctNames(t)
    ensures forall g :: CountOf(Bump(t, f), g) == CountOf(t, g) + (if g == f then 1 else 0)
  {
    if |t| > 0 {
      DistinctTail(t);
      if t[0].0 == f {
        assert CountOf(t[1..], f) == 0 by {
          forall k | 0 <= k < |t[1..]| ensures t[1..][k].0 != f {
            assert t[1..][k] == t[k + 1];
          }
          NoNameNoCount(t[1..], f);
        }
        assert Bump(t, f)[1..] == t[1..];
      } else {
        BumpCount(t[1..], f);
        assert Bump(t, f)[1..] == Bump(t[1..], f);
      }
    }
  }

  lemma {:induction false} BumpDistinct(t: seq<(string, nat)>, f: string)
    requires DistinctNames(t)
    ensures DistinctNames(Bump(t, f))
  {
    if |t| > 0 {
      var r := Bump(t, f);
      DistinctTail(t);
      if t[0].0 == f {
        forall k, l | 0 <= k < l < |r| ensures r[k].0 != r[l].0 { assert r[k].0 == t[k].0 && r[l].0 == t[l].0; }
      } else {
        var br := Bump(t[1..], f);
        BumpDistinct(t[1..], f);
        BumpNames(t[1..], f);
        assert r == [t[0]] + br;
        forall k, l | 0 <= k < l < |r| ensures r[k].0 != r[l].0 {
          if k == 0 {
            assert br[l - 1] == r[l];
            assert Names(br, r[l].0);
          } else {
            assert br[k - 1] == r[k] && br[l - 1] == r[l];
          }
        }
      }
    }
  }

  lemma {:induction false} BumpPositive(t: seq<(string, nat)>, f: string)
    ensures forall k :: 0 <= k < |Bump(t, f)| ==> Bump(t, f)[k].1 > 0 || (k < |t| && Bump(t, f)[k] == t[k])
  {
    if |t| > 0 && t[0].0 != f {
      BumpPositive(t[1..], f);
      var r := Bump(t, f);
      var br := Bump(t[1..], f);
      assert r == [t[0]] + br;
      forall k | 0 < k < |r| ensures r[k].1 > 0 || (k < |t| && r[k] == t[k]) {
        assert r[k] == br[k - 1];
        if k - 1 < |t[1..]| && br[k - 1] == t[1..][k - 1] { assert t[k] == t[1..][k - 1]; }
      }
    }
  }

  lemma {:induction false} NoNameNoCount(t: seq<(string, nat)>, f: string)
    requires forall k :: 0 <= k < |t| ==> t[k].0 != f
    ensures CountOf(t, f) == 0
  {
    if |t| > 0 {
      NoNameNoCount(t[1..], f);
    }
  }

  /**
   * The tally names every form once with its number of occurrences, and the
   * counts add up to the number of filings (`total_filings`).
   */
  lemma {:induction false} TallyCounts(forms: seq<string>)
    ensures DistinctNames(Tally(forms))
    ensures Total(Tally(forms)) == |forms|
    ensures forall f :: CountOf(Tally(forms), f) == Occurrences(forms, f)
    ensures forall f :: Names(Tally(forms), f) <==> f in forms
  {
    if |forms| > 0 {
      var front := forms[..|forms| - 1];
      TallyCounts(front);
      BumpFacts(Tally(front), forms[|forms| - 1]);
      assert forms == front + [forms[|forms| - 1]];
    }
  }

  /** `Counter([f['form'] for f in filings])`, one filing at a time. */
  method CountForms(forms: seq<string>) returns (counts: seq<(string, nat)>)
    ensures counts == Tally(forms)
  {
    counts := [];
    for i := 0 to |forms|
      invariant counts == Tally(forms[..i])
    {
      assert forms[..i + 1][..i] == forms[..i];
      counts := BumpLoop(counts, forms[i]);
    }
    assert forms[..|forms|] == forms;
  }

  /** The dictionary update: the entry for `f` is found by scanning. */
  method BumpLoop(t: seq<(string, nat)>, f: string) returns (r: seq<(string, nat)>)
    ensures r == Bump(t, f)
  {
    var i := 0;
    while i < |t| && t[i].0 != f
      invariant 0 <= i <= |t|
      invariant forall j :: 0 <= j < i ==> t[j].0 != f
      invariant Bump(t, f) == t[..i] + Bump(t[i..], f)
    {
      assert t[i..] == [t[i]] + t[i + 1..];
      assert t[..i + 1] == t[..i] + [t[i]];
      i := i + 1;
    }
    if i == |t| {
      r := t + [(f, 1)];
      assert t[i..] == [];
    } else {
      r := t[..i] + [(f, t[i].1 + 1)] + t[i + 1..];
      assert t[i..][1..] == t[i + 1..];
    }
  }

  /** Larger counts first; equal counts by form name (`key=lambda x: (-x[1], x[0])`). */
  predicate ByCountThenForm(a: (string, nat), b: (string, nat))
  {
    a.1 > b.1 || (a.1 == b.1 && StrLe(a.0, b.0))
  }

  lemma ByCountThenFormPreorder()
    ensures TotalPreorder(ByCountThenForm)
  {
    forall a: (string, nat), b: (string, nat)
      ensures ByCountThenForm(a, b) || ByCountThenForm(b, a)
    {
      StrLeTotal(a.0, b.0);
    }
    forall a: (string, nat), b: (string, nat), c: (string, nat) | ByCountThenForm(a, b) && ByCountThenForm(b, c)
      ensures ByCountThenForm(a, c)
    {
      if a.1 == b.1 && b.1 == c.1 {
        StrLeTrans(a.0, b.0, c.0);
      }
    }
  }

  /** The summary lines, in print order. */
  function Summary(forms: seq<string>): seq<(string, nat)>
  {
    SortBy(Tally(forms), ByCountThenForm)
  }

  lemma {:induction false} InsertTotal(x: (string, nat), s: seq<(string, nat)>, le: ((string, nat), (string, nat)) -> bool)
    ensures Total(Insert(x, s, le)) == x.1 + Total(s)
  {
    if |s| > 0 && le(s[0], x) {
      InsertTotal(x, s[1..], le);
    }
  }

  lemma {:induction false} TotalAppend(s: seq<(string, nat)>, x: (string, nat))
    ensures Total(s + [x]) == Total(s) + x.1
  {
    if |s| > 0 {
      TotalAppend(s[1..], x);
      assert (s + [x])[1..] == s[1..] + [x];
    }
  }

  lemma {:induction false} SortByTotal(s: seq<(string, nat)>, le: ((string, nat), (string, nat)) -> bool)
    ensures Total(SortBy(s, le)) == Total(s)
  {
    if |s| > 0 {
      var front := s[..|s| - 1];
      SortByTotal(front, le);
      InsertTotal(s[|s| - 1], SortBy(front, le), le);
      TotalAppend(front, s[|s| - 1]);
      assert s == front + [s[|s| - 1]];
    }
  }

  /**
   * The summary lists every form of the filings once with its count, by
   * descending count then form name, and the counts sum to the total.
   */
  lemma SummaryOrdered(forms: seq<string>)
    ensures SortedBy(Summary(forms), ByCountThenForm)
    ensures multiset(Summary(forms)) == multiset(Tally(forms))
    ensures Total(Summary(forms)) == |forms|
    ensures forall e :: e in Summary(forms) ==> e.0 in forms && e.1 == Occurrences(forms, e.0)
  {
    ByCountThenFormPreorder();
    SortBySorted(Tally(forms), ByCountThenForm);
    SortByTotal(Tally(forms), ByCountThenForm);
    TallyCounts(forms);
    var t := Tally(forms);
    forall e | e in Summary(forms)
      ensures e.0 in forms && e.1 == Occurrences(forms, e.0)
    {
      assert e in multiset(t);
      var k :| 0 <= k < |t| && t[k] == e;
      assert Names(t, e.0);
      CountAtName(t, k);
    }
  }

  lemma {:induction false} CountAtName(t: seq<(string, nat)>, k: nat)
    requires DistinctNames(t) && k < |t|
    ensures CountOf(t, t[k].0) == t[k].1
  {
    if k > 0 {
      var rest := t[1..];
      assert DistinctNames(rest) by {
        forall i, j | 0 <= i < j < |rest| ensures rest[i].0 != rest[j].0 { assert rest[i] == t[i + 1] && rest[j] == t[j + 1]; }
      }
      assert t[0].0 != t[k].0;
      CountAtName(rest, k - 1);
    }
  }

  // ---------------------------------------------------------------------------
  // CIK and output path

  /** `cik.zfill(10)`. */
  function PaddedCik(cik: string): (r: string)
    ensures |r| == if |cik| >= CikWidth then |cik| else CikWidth
  {
    ZFill(cik, CikWidth)
  }

  lemma {:induction false} LeadingZeros(z: string, s: string)
    requires AllDigits(s) && forall i :: 0 <= i < |z| ==> z[i] == '0'
    ensures AllDigits(z + s) && DigitsValue(z + s) == DigitsValue(s)
    decreases |s|
  {
    if |s| == 0 {
      assert z + s == z;
      Zeros(z);
    } else {
      var front := s[..|s| - 1];
      LeadingZeros(z, front);
      assert (z + s)[..|z + s| - 1] == z + front;
    }
  }

  lemma {:induction false} Zeros(z: string)
    requires forall i :: 0 <= i < |z| ==> z[i] == '0'
    ensures AllDigits(z) && DigitsValue(z) == 0
  {
    if |z| > 0 {
      Zeros(z[..|z| - 1]);
    }
  }

  /** A short digit-only CIK has no sign to keep in front: it is padded on the left with zeros. */
  lemma PaddedShortCik(cik: string)
    requires AllDigits(cik) && |cik| < CikWidth
    ensures PaddedCik(cik) == PadLeft(cik, CikWidth, '0')
  {
    if |cik| > 0 {
      assert IsDigit(cik[0]);
    }
    ZFillUnsigned(cik, CikWidth);
  }

  /** A digit-only CIK keeps its digits, at the end, and its numeric value. */
  lemma PaddedCikValue(cik: string)
    requires AllDigits(cik)
    ensures var r := PaddedCik(cik); AllDigits(r) && r[|r| - |cik|..] == cik && DigitsValue(r) == DigitsValue(cik)
  {
    if |cik| >= CikWidth {
      assert PaddedCik(cik) == cik;
    } else {
      PaddedShortCik(cik);
      var r := PadLeft(cik, CikWidth, '0');
      PadLeftShape(cik, CikWidth, '0');
      LeadingZeros(r[..|r| - |cik|], cik);
    }
  }

  /** `PROJECT_ROOT / 'sec-data' / f'{ticker.lower()}_filings_26mo.json'`. */
  function OutputPath(projectRoot: string, ticker: string): string
  {
    projectRoot + "/sec-data/" + Lower(ticker) + "_filings_26mo.json"
  }

  /** The ticker's case does not change the output file. */
  lemma OutputPathIgnoresCase(projectRoot: string, ticker: string)
    ensures OutputPath(projectRoot, Upper(ticker)) == OutputPath(projectRoot, ticker)
  {
    LowerOfUpper(ticker);
  }
}
