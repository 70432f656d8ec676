/**
 * The batch analysis of the paper collection: which papers are analysed and
 * how (by page count), how a long text is truncated or cut into chunks, how
 * the papers are split into batches, and how section analyses are combined
 * when the synthesis pass fails. The PDF reader, the local model and the
 * result files are inputs.
 */
module PaperBatch {
  import opened Wrappers

  // ---------------------------------------------------------------------
  // The catalogue

  datatype Paper = Paper(name: string, pages: int)

  const ShortPapers: seq<Paper> := [
    Paper("article_wealthtransfers_us.pdf", 9),
    Paper("article_confidence.pdf", 11),
    Paper("article_mythbustingpopulardelusions_en.pdf", 11),
    Paper("article_bayesandbaserates_ltr.pdf", 12),
    Paper("article_newbuinessboomandbust_us.pdf", 12),
    Paper("article_everythingisadcfmodel_us.pdf", 13),
    Paper("article_goodlossesbadlosses.pdf", 13),
    Paper("article_themathofvalueandgrowth.pdf", 13),
    Paper("article_themathofvalueandgrowth_us.pdf", 13),
    Paper("articles_waccandvol.pdf", 13),
    Paper("article_intangiblesandearnings_us.pdf", 14),
    Paper("article_theimpactofintangiblesonbaserates.pdf", 14),
    Paper("Mauboussin.pdf", 15),
    Paper("article_categorizingforclarity.pdf", 16),
    Paper("dispersion-and-alpha-conversion.pdf", 16),
    Paper("article_stockmarketconcentration.pdf", 18),
    Paper("article_bintheredonethat_us.pdf", 19)
  ]

  const MediumPapers: seq<Paper> := [
    Paper("article_whichoneisitequityissuanceretirement.pdf", 20),
    Paper("article_costofcapitalandcapitalallocation.pdf", 21),
    Paper("article_marketexpectedreturnoninvestment_en.pdf", 22),
    Paper("article_patternrecognition.pdf", 22),
    Paper("article_underestimatingtheredqueen.pdf", 22),
    Paper("article_chartsfromthevaultpicturestoponder.pdf", 23),
    Paper("article_feedback_us.pdf", 23),
    Paper("article_tradingstagesinthecompanylifecycle.pdf", 24),
    Paper("article_turnandfacethestrange_us.pdf", 24),
    Paper("article_increasingreturns.pdf", 25),
    Paper("article_onejob.pdf", 25),
    Paper("article_valuationmultiples.pdf", 26),
    Paper("article_stockbasedcompensation.pdf", 29),
    Paper("article_roicandtheinvestmentprocess.pdf", 31),
    Paper("article_totalshareholderreturns.pdf", 32),
    Paper("article_birthdeathandwealthcreation.pdf", 34),
    Paper("article_theeconomicsofcustomerbusinessesV2_us.pdf", 38),
    Paper("article_returnoninvestedcapital.pdf", 44),
    Paper("article_costofcapital.pdf", 50)
  ]

  const LargePapers: seq<Paper> := [Paper("article_marketshare.pdf", 57)]

  const AllPapers: seq<Paper> := ShortPapers + MediumPapers + LargePapers

  /** Papers per batch. */
  const BatchSize := 1

  /** Characters of text a short-paper prompt carries before truncation. */
  const MaxChars := 30000

  const TruncationMarker := "\n\n[Text truncated due to length]"

  /** Characters per chunk of a medium paper, and how many chunks are analysed. */
  const ChunkSize := 20000
  const MaxChunks := 6

  // ---------------------------------------------------------------------
  // Routing by page count

  /** The analysis a paper gets; a large paper is analysed like a medium one. */
  datatype Route = Short | Medium | Large

  function RouteOf(pages: int): (r: Route)
    ensures r == Short <==> pages < 20
    ensures r == Medium <==> 20 <= pages <= 50
    ensures r == Large <==> pages > 50
  {
    if pages < 20 then Short else if pages <= 50 then Medium else Large
  }

  /** Each list of the catalogue holds exactly the papers its page counts route to it. */
  lemma CatalogueRoutes()
    ensures forall k :: 0 <= k < |ShortPapers| ==> RouteOf(ShortPapers[k].pages) == Short
    ensures forall k :: 0 <= k < |MediumPapers| ==> RouteOf(MediumPapers[k].pages) == Medium
    ensures forall k :: 0 <= k < |LargePapers| ==> RouteOf(LargePapers[k].pages) == Large
    ensures |AllPapers| == 37
  {
  }

  // ---------------------------------------------------------------------
  // Truncation and chunking

  /** The short-paper prompt text: at most 30000 characters and then the marker. */
  function Truncated(text: string): string
  {
    if |text| > MaxChars then text[..MaxChars] + TruncationMarker else text
  }

  /**
   * A text within the limit is kept whole; a longer one keeps exactly its
   * first 30000 characters, followed by the marker.
   */
  lemma TruncatedShape(text: string)
    ensures |text| <= MaxChars ==> Truncated(text) == text
    ensures |text| > MaxChars ==>
              |Truncated(text)| == MaxChars + |TruncationMarker| &&
              Truncated(text)[..MaxChars] == text[..MaxChars] &&
              Truncated(text)[MaxChars..] == TruncationMarker
    ensures |Truncated(text)| <= MaxChars + |TruncationMarker|
  {
  }

  /** `[s[i:i+size] for i in range(0, len(s), size)]`: consecutive pieces of `size`. */
  function Pieces<T>(s: seq<T>, size: nat): (r: seq<seq<T>>)
    requires size > 0
    decreases |s|
  {
    if |s| == 0 then []
    else if |s| <= size then [s]
    else [s[..size]] + Pieces(s[size..], size)
  }

  function Concat<T>(ps: seq<seq<T>>): seq<T>
  {
    if |ps| == 0 then [] else ps[0] + Concat(ps[1..])
  }

  /**
   * The pieces put back together give the sequence; every piece is
   * non-empty and at most `size` long, all but the last exactly `size`; and
   * there are ceil(|s| / size) of them.
   */
  lemma PiecesCover<T>(s: seq<T>, size: nat)
    requires size > 0
    ensures Concat(Pieces(s, size)) == s
    ensures forall k :: 0 <= k < |Pieces(s, size)| ==> 0 < |Pieces(s, size)[k]| <= size
    ensures forall k :: 0 <= k < |Pieces(s, size)| - 1 ==> |Pieces(s, size)[k]| == size
    ensures |Pieces(s, size)| == (|s| + size - 1) / size
  {
    PiecesConcat(s, size);
    PiecesSizes(s, size);
    PiecesCount(s, size);
    CeilOf(|s|, size, |Pieces(s, size)|);
  }

  lemma {:induction false} PiecesConcat<T>(s: seq<T>, size: nat)
    requires size > 0
    ensures Concat(Pieces(s, size)) == s
    decreases |s|
  {
    if |s| > size {
      var rest := s[size..];
      PiecesConcat(rest, size);
      assert Pieces(s, size)[1..] == Pieces(rest, size);
      assert s == s[..size] + rest;
    } else if |s| > 0 {
      assert Concat([s]) == s + Concat([]);
    }
  }

  lemma {:induction false} PiecesSizes<T>(s: seq<T>, size: nat)
    requires size > 0
    ensures forall k :: 0 <= k < |Pieces(s, size)| ==> 0 < |Pieces(s, size)[k]| <= size
    ensures forall k :: 0 <= k < |Pieces(s, size)| - 1 ==> |Pieces(s, size)[k]| == size
    decreases |s|
  {
    if |s| > size {
      var rest := s[size..];
      PiecesSizes(rest, size);
      var ps := Pieces(s, size);
      assert ps == [s[..size]] + Pieces(rest, size);
      forall k | 0 <= k < |ps|
        ensures 0 < |ps[k]| <= size
        ensures k < |ps| - 1 ==> |ps[k]| == size
      {
        if k > 0 {
          assert ps[k] == Pieces(rest, size)[k - 1];
        }
      }
    }
  }

  /** The pieces number the least `k` with `k * size >= |s|`. */
  lemma {:induction false} PiecesCount<T>(s: seq<T>, size: nat)
    requires size > 0
    ensures |s| <= |Pieces(s, size)| * size < |s| + size
    decreases |s|
  {
    if |s| > size {
      var rest := s[size..];
      PiecesCount(rest, size);
      assert |Pieces(s, size)| == 1 + |Pieces(rest, size)|;
      assert (1 + |Pieces(rest, size)|) * size == size + |Pieces(rest, size)| * size;
    }
  }

  lemma MulAtLeast(x: int, d: int)
    requires x >= 1 && d > 0
    ensures x * d >= d
  {
  }

  /** Integer division has one answer. */
  lemma DivUnique(a: int, d: int, q: int)
    requires d > 0 && q * d <= a < q * d + d
    ensures a / d == q
  {
    var p := a / d;
    assert a == p * d + a % d;
    if p > q {
      MulAtLeast(p - q, d);
    } else if p < q {
      MulAtLeast(q - p, d);
    }
  }

  /** `(n + size - 1) // size` is the ceiling of `n / size`. */
  lemma CeilOf(n: nat, size: nat, k: nat)
    requires size > 0 && n <= k * size < n + size
    ensures (n + size - 1) / size == k
  {
    DivUnique(n + size - 1, size, k);
  }

  /** The first `k` pieces cover the first `k * size` elements (or all of them). */
  lemma {:induction false} PiecesPrefix<T>(s: seq<T>, size: nat, k: nat)
    requires size > 0 && k <= |Pieces(s, size)|
    ensures Concat(Pieces(s, size)[..k]) == s[..if |s| < k * size then |s| else k * size]
    decreases k
  {
    var ps := Pieces(s, size);
    if k > 0 {
      if |s| <= size {
        assert k == 1 && ps[..k] == [s];
        assert Concat([s]) == s + Concat([]);
        assert s[..|s|] == s;
      } else {
        var rest := s[size..];
        PiecesPrefix(rest, size, k - 1);
        assert ps[..k] == [s[..size]] + Pieces(rest, size)[..k - 1];
        assert Concat(ps[..k]) == s[..size] + Concat(Pieces(rest, size)[..k - 1]);
        var n := if |rest| < (k - 1) * size then |rest| else (k - 1) * size;
        assert k * size == size + (k - 1) * size;
        assert s[..size] + rest[..n] == s[..size + n];
      }
    }
  }

  /**
   * The chunks a medium paper's sections are analysed from: the text in
   * pieces of 20000 characters, at most six of them, so exactly the first
   * 120000 characters (or the whole text) are seen.
   */
  function AnalysedChunks(text: string): seq<string>
  {
    var cs := Pieces(text, ChunkSize);
    if |cs| <= MaxChunks then cs else cs[..MaxChunks]
  }

  lemma AnalysedChunksCover(text: string)
    ensures |AnalysedChunks(text)| <= MaxChunks
    ensures Concat(AnalysedChunks(text)) ==
            text[..if |text| < MaxChunks * ChunkSize then |text| else MaxChunks * ChunkSize]
  {
    var cs := Pieces(text, ChunkSize);
    PiecesCount(text, ChunkSize);
    if |cs| <= MaxChunks {
      PiecesPrefix(text, ChunkSize, |cs|);
      assert cs[..|cs|] == cs;
    } else {
      PiecesPrefix(text, ChunkSize, MaxChunks);
    }
  }

  // ---------------------------------------------------------------------
  // combine_analyses

  /** A JSON field: missing, `null`, or a string. */
  datatype Field = Absent | Null | Str(s: string)

  /** A metric entry; `entry` stands for the rest of its fields. */
  datatype Metric = Metric(canonicalName: Field, metricName: Field, entry: int)

  /** A list item: a string, or an object (which a set cannot hold). */
  datatype Item = Text(s: string) | Object

  datatype Analysis = Analysis(paperTitle: Field, metrics: seq<Metric>, frameworks: seq<Item>,
                               keyInsights: seq<Item>, pitfalls: seq<Item>)

  /** The combined analysis; the de-duplicated lists have no order, so they are sets. */
  datatype Combined = Combined(paperTitle: Option<string>, metrics: seq<Metric>, frameworks: set<string>,
                               keyInsights: set<string>, pitfalls: set<string>, totalMetrics: nat)

  /** `metric.get("canonical_name", metric.get("metric_name", ""))`; `None` is a null. */
  function KeyOf(m: Metric): Option<string>
  {
    match m.canonicalName
    case Str(s) => Some(s)
    case Null => None
    case Absent =>
      (match m.metricName
       case Str(s) => Some(s)
       case Null => None
       case Absent => Some(""))
  }

  /** The key is truthy: present and not empty. */
  predicate Named(m: Metric)
  {
    KeyOf(m).Some? && KeyOf(m).value != ""
  }

  /** Every analysis's metrics, in order. */
  function AllMetrics(as_: seq<Analysis>): seq<Metric>
  {
    if |as_| == 0 then [] else AllMetrics(as_[..|as_| - 1]) + as_[|as_| - 1].metrics
  }

  /** The keys seen after walking `ms`. */
  function Seen(ms: seq<Metric>): set<string>
  {
    if |ms| == 0 then {}
    else
      var m := ms[|ms| - 1];
      Seen(ms[..|ms| - 1]) + (if Named(m) then {KeyOf(m).value} else {})
  }

  /** The metrics kept: each named metric whose key was not seen before. */
  function Kept(ms: seq<Metric>): seq<Metric>
  {
    if |ms| == 0 then []
    else
      var m := ms[|ms| - 1];
      var front := ms[..|ms| - 1];
      Kept(front) + (if Named(m) && KeyOf(m).value !in Seen(front) then [m] else [])
  }

  /** The position of the first named metric with key `key`. */
  function FirstWithKey(ms: seq<Metric>, key: string): (r: Option<nat>)
    ensures r.Some? ==> r.value < |ms| && Named(ms[r.value]) && KeyOf(ms[r.value]) == Some(key) &&
                        forall j :: 0 <= j < r.value ==> !(Named(ms[j]) && KeyOf(ms[j]) == Some(key))
    ensures r.None? ==> forall j :: 0 <= j < |ms| ==> !(Named(ms[j]) && KeyOf(ms[j]) == Some(key))
  {
    if |ms| == 0 then None
    else
      var front := ms[..|ms| - 1];
      match FirstWithKey(front, key)
      case Some(i) => Some(i)
      case None => if Named(ms[|ms| - 1]) && KeyOf(ms[|ms| - 1]) == Some(key) then Some(|ms| - 1) else None
  }

  /** The items of one list field across all analyses. */
  function Items(as_: seq<Analysis>, field: Analysis -> seq<Item>): seq<Item>
  {
    if |as_| == 0 then [] else Items(as_[..|as_| - 1], field) + field(as_[|as_| - 1])
  }

  predicate Hashable(items: seq<Item>)
  {
    forall k :: 0 <= k < |items| ==> items[k].Text?
  }

  function TextSet(items: seq<Item>): (r: set<string>)
    ensures forall x :: x in r <==> Text(x) in items
  {
    if |items| == 0 then {}
    else TextSet(items[..|items| - 1]) + (if items[|items| - 1].Text? then {items[|items| - 1].s} else {})
  }

  function Frameworks(a: Analysis): seq<Item> { a.frameworks }
  function KeyInsights(a: Analysis): seq<Item> { a.keyInsights }
  function Pitfalls(a: Analysis): seq<Item> { a.pitfalls }

  /** `combine_analyses`; `None` when `set()` meets an object and raises TypeError. */
  function Combine(as_: seq<Analysis>): Option<Combined>
  {
    var fs := Items(as_, Frameworks);
    var ks := Items(as_, KeyInsights);
    var ps := Items(as_, Pitfalls);
    if !(Hashable(fs) && Hashable(ks) && Hashable(ps)) then None
    else
      var title := if |as_| == 0 then Some("Unknown")
                   else match as_[0].paperTitle
                     case Absent => Some("Unknown")
                     case Null => None
                     case Str(t) => Some(t);
      var kept := Kept(AllMetrics(as_));
      Some(Combined(title, kept, TextSet(fs), TextSet(ks), TextSet(ps), |kept|))
  }

  /** One step of the metric walk: the kept list and the seen set grow together. */
  lemma KeptStep(ms: seq<Metric>, m: Metric)
    ensures Seen(ms + [m]) == Seen(ms) + (if Named(m) then {KeyOf(m).value} else {})
    ensures Kept(ms + [m]) == Kept(ms) + (if Named(m) && KeyOf(m).value !in Seen(ms) then [m] else [])
  {
    assert (ms + [m])[..|ms|] == ms;
  }

  /** Where the first metric with `m`'s key stands, or -1 for an unnamed metric. */
  function KeyPos(ms: seq<Metric>, m: Metric): int
  {
    if !Named(m) then -1
    else match FirstWithKey(ms, KeyOf(m).value)
      case Some(i) => i
      case None => -1
  }

  /**
   * The kept metrics are each the first metric of their key, in the order
   * the keys were first seen, so their keys are pairwise different; and
   * there is one for every named key.
   */
  lemma KeptFirstPerKey(ms: seq<Metric>)
    ensures forall k :: 0 <= k < |Kept(ms)| ==>
              Named(Kept(ms)[k]) && 0 <= KeyPos(ms, Kept(ms)[k]) < |ms| && ms[KeyPos(ms, Kept(ms)[k])] == Kept(ms)[k]
    ensures forall i, j :: 0 <= i < j < |Kept(ms)| ==>
              KeyPos(ms, Kept(ms)[i]) < KeyPos(ms, Kept(ms)[j]) && KeyOf(Kept(ms)[i]) != KeyOf(Kept(ms)[j])
    ensures forall k :: 0 <= k < |ms| && Named(ms[k]) ==> exists i :: 0 <= i < |Kept(ms)| && KeyOf(Kept(ms)[i]) == KeyOf(ms[k])
    ensures |Kept(ms)| == |Seen(ms)|
  {
    KeptAreFirst(ms);
    KeptOrdered(ms);
    KeptCount(ms);
    KeptCoversSeen(ms);
    SeenIffFirst(ms);
    forall k | 0 <= k < |ms| && Named(ms[k])
      ensures exists i :: 0 <= i < |Kept(ms)| && KeyOf(Kept(ms)[i]) == KeyOf(ms[k])
    {
      var key := KeyOf(ms[k]).value;
      assert FirstWithKey(ms, key).Some?;
      assert key in Seen(ms);
    }
  }

  /** A key has been seen exactly when some named metric carries it. */
  lemma {:induction false} SeenIffFirst(ms: seq<Metric>)
    ensures forall key :: key in Seen(ms) <==> FirstWithKey(ms, key).Some?
  {
    if |ms| > 0 {
      var front := ms[..|ms| - 1];
      var m := ms[|ms| - 1];
      SeenIffFirst(front);
      assert ms == front + [m];
      KeptStep(front, m);
      FirstWithKeyStep(front, m);
    }
  }

  lemma {:induction false} KeptAreFirst(ms: seq<Metric>)
    ensures forall k :: 0 <= k < |Kept(ms)| ==>
              Named(Kept(ms)[k]) && 0 <= KeyPos(ms, Kept(ms)[k]) < |ms| && ms[KeyPos(ms, Kept(ms)[k])] == Kept(ms)[k]
  {
    if |ms| > 0 {
      var front := ms[..|ms| - 1];
      var m := ms[|ms| - 1];
      KeptAreFirst(front);
      SeenIffFirst(front);
      assert ms == front + [m];
      KeptStep(front, m);
      FirstWithKeyStep(front, m);
      var kf := Kept(front);
      var kept := Kept(ms);
      forall k | 0 <= k < |kept|
        ensures Named(kept[k]) && 0 <= KeyPos(ms, kept[k]) < |ms| && ms[KeyPos(ms, kept[k])] == kept[k]
      {
        if k < |kf| {
          assert kept[k] == kf[k];
          assert KeyPos(ms, kf[k]) == KeyPos(front, kf[k]);
          assert ms[KeyPos(front, kf[k])] == front[KeyPos(front, kf[k])];
        } else {
          assert kept[k] == m && Named(m) && KeyOf(m).value !in Seen(front);
          assert KeyPos(ms, m) == |front|;
        }
      }
    }
  }

  lemma {:induction false} KeptOrdered(ms: seq<Metric>)
    ensures forall i, j :: 0 <= i < j < |Kept(ms)| ==>
              KeyPos(ms, Kept(ms)[i]) < KeyPos(ms, Kept(ms)[j]) && KeyOf(Kept(ms)[i]) != KeyOf(Kept(ms)[j])
  {
    if |ms| > 0 {
      var front := ms[..|ms| - 1];
      var m := ms[|ms| - 1];
      KeptOrdered(front);
      KeptAreFirst(front);
      SeenIffFirst(front);
      assert ms == front + [m];
      KeptStep(front, m);
      FirstWithKeyStep(front, m);
      var kf := Kept(front);
      var kept := Kept(ms);
      forall k | 0 <= k < |kf|
        ensures KeyPos(ms, kf[k]) == KeyPos(front, kf[k])
      {
      }
      forall i, j | 0 <= i < j < |kept|
        ensures KeyPos(ms, kept[i]) < KeyPos(ms, kept[j]) && KeyOf(kept[i]) != KeyOf(kept[j])
      {
        assert kept[i] == kf[i];
        if j < |kf| {
          assert kept[j] == kf[j];
        } else {
          assert kept[j] == m && KeyOf(m).value !in Seen(front);
          assert KeyPos(ms, m) == |front|;
          assert KeyOf(kf[i]).value in Seen(front);
        }
      }
    }
  }

  lemma {:induction false} KeptCount(ms: seq<Metric>)
    ensures |Kept(ms)| == |Seen(ms)|
  {
    if |ms| > 0 {
      var front := ms[..|ms| - 1];
      var m := ms[|ms| - 1];
      KeptCount(front);
      assert ms == front + [m];
      KeptStep(front, m);
    }
  }

  /** Every seen key is the key of a kept metric. */
  lemma {:induction false} KeptCoversSeen(ms: seq<Metric>)
    ensures forall key :: key in Seen(ms) ==> exists i :: 0 <= i < |Kept(ms)| && KeyOf(Kept(ms)[i]) == Some(key)
  {
    if |ms| > 0 {
      var front := ms[..|ms| - 1];
      var m := ms[|ms| - 1];
      KeptCoversSeen(front);
      assert ms == front + [m];
      KeptStep(front, m);
      var kf := Kept(front);
      var kept := Kept(ms);
      assert kept[..|kf|] == kf;
      forall key | key in Seen(ms)
        ensures exists i :: 0 <= i < |kept| && KeyOf(kept[i]) == Some(key)
      {
        if key in Seen(front) {
          var i :| 0 <= i < |kf| && KeyOf(kf[i]) == Some(key);
          assert kept[i] == kf[i];
        } else {
          assert kept[|kept| - 1] == m;
        }
      }
    }
  }

  /** Appending a metric changes the first position of no key already present. */
  lemma FirstWithKeyStep(front: seq<Metric>, m: Metric)
    ensures forall key :: FirstWithKey(front + [m], key) ==
              if FirstWithKey(front, key).Some? then FirstWithKey(front, key)
              else if Named(m) && KeyOf(m) == Some(key) then Some(|front|) else None
  {
    assert (front + [m])[..|front|] == front;
  }

  /**
   * The combined analysis: the title of the first analysis ('Unknown' when
   * there is none or it has no title), total_metrics counts the kept
   * metrics, one per distinct key, and the de-duplicated lists hold exactly
   * the strings some analysis lists.
   */
  lemma CombineShape(as_: seq<Analysis>)
    requires Combine(as_).Some?
    ensures var c := Combine(as_).value;
            c.totalMetrics == |c.metrics| == |Seen(AllMetrics(as_))| &&
            (|as_| == 0 ==> c.paperTitle == Some("Unknown") && c.metrics == []) &&
            (|as_| > 0 && as_[0].paperTitle.Absent? ==> c.paperTitle == Some("Unknown")) &&
            (|as_| > 0 && as_[0].paperTitle.Str? ==> c.paperTitle == Some(as_[0].paperTitle.s)) &&
            (forall x :: x in c.frameworks <==> Text(x) in Items(as_, Frameworks)) &&
            (forall x :: x in c.keyInsights <==> Text(x) in Items(as_, KeyInsights)) &&
            (forall x :: x in c.pitfalls <==> Text(x) in Items(as_, Pitfalls))
  {
    KeptFirstPerKey(AllMetrics(as_));
  }

  /** An object in any of the three lists makes `set()` raise. */
  lemma CombineRaises(as_: seq<Analysis>, k: nat)
    requires k < |Items(as_, Frameworks)| && Items(as_, Frameworks)[k] == Object
    ensures Combine(as_).None?
  {
  }

  /** `combine_analyses`: the metric walk with the `seen_metrics` set, then the three lists. */
  method CombineAnalyses(as_: seq<Analysis>) returns (r: Option<Combined>)
    ensures r == Combine(as_)
  {
    var metrics: seq<Metric> := [];
    var seen: set<string> := {};
    var frameworks: seq<Item> := [];
    var insights: seq<Item> := [];
    var pitfalls: seq<Item> := [];
    for i := 0 to |as_|
      invariant metrics == Kept(AllMetrics(as_[..i])) && seen == Seen(AllMetrics(as_[..i]))
      invariant frameworks == Items(as_[..i], Frameworks)
      invariant insights == Items(as_[..i], KeyInsights)
      invariant pitfalls == Items(as_[..i], Pitfalls)
    {
      assert as_[..i + 1][..i] == as_[..i];
      metrics, seen := WalkMetrics(metrics, seen, AllMetrics(as_[..i]), as_[i].metrics);
      frameworks := frameworks + as_[i].frameworks;
      insights := insights + as_[i].keyInsights;
      pitfalls := pitfalls + as_[i].pitfalls;
    }
    assert as_[..|as_|] == as_;
    if !(Hashable(frameworks) && Hashable(insights) && Hashable(pitfalls)) {
      return None;
    }
    var title := Some("Unknown");
    if |as_| > 0 {
      match as_[0].paperTitle
      case Absent =>
      case Null => title := None;
      case Str(t) => title := Some(t);
    }
    return Some(Combined(title, metrics, TextSet(frameworks), TextSet(insights), TextSet(pitfalls), |metrics|));
  }

  /** The inner loop over one analysis's metrics. */
  method WalkMetrics(metrics: seq<Metric>, seen: set<string>, before: seq<Metric>, ms: seq<Metric>)
    returns (metrics': seq<Metric>, seen': set<string>)
    requires metrics == Kept(before) && seen == Seen(before)
    ensures metrics' == Kept(before + ms) && seen' == Seen(before + ms)
  {
    metrics', seen' := metrics, seen;
    assert before + ms[..0] == before;
    for j := 0 to |ms|
      invariant metrics' == Kept(before + ms[..j]) && seen' == Seen(before + ms[..j])
    {
      var m := ms[j];
      KeptStep(before + ms[..j], m);
      assert before + ms[..j + 1] == (before + ms[..j]) + [m];
      var name := KeyOf(m);
      if name.Some? && name.value != "" && name.value !in seen' {
        seen' := seen' + {name.value};
        metrics' := metrics' + [m];
      } else if name.Some? && name.value != "" {
        seen' := seen' + {name.value};
      }
    }
    assert ms[..|ms|] == ms;
  }

  // ---------------------------------------------------------------------
  // process_batch and the batches of main

  /** What the result file of a paper holds: nothing, unreadable JSON, or a saved result. */
  datatype Saved<R> = NotProcessed | Unreadable | Stored(result: R)

  /** The passes a paper gets: a single prompt, or the multi-pass section analysis. */
  datatype Pass = SinglePass | MultiPass

  function PassOf(pages: int): (p: Pass)
    ensures p == SinglePass <==> RouteOf(pages) == Short
  {
    match RouteOf(pages)
    case Short => SinglePass
    case Medium => MultiPass
    case Large => MultiPass
  }

  /**
   * What one paper appends to `all_results`: nothing for a missing PDF, the
   * saved result for a processed paper (nothing if it cannot be read), and
   * otherwise the analysis (nothing if it raises).
   */
  function PaperResult<R>(p: Paper, exists_: string -> bool, saved: string -> Saved<R>,
                          analyse: (Pass, string, int) -> Option<R>): seq<R>
  {
    if !exists_(p.name) then []
    else match saved(p.name)
      case Unreadable => []
      case Stored(r) => [r]
      case NotProcessed =>
        match analyse(PassOf(p.pages), p.name, p.pages)
        case None => []
        case Some(r) => [r]
  }

  function BatchResults<R>(ps: seq<Paper>, exists_: string -> bool, saved: string -> Saved<R>,
                           analyse: (Pass, string, int) -> Option<R>): seq<R>
  {
    if |ps| == 0 then []
    else BatchResults(ps[..|ps| - 1], exists_, saved, analyse) + PaperResult(ps[|ps| - 1], exists_, saved, analyse)
  }

  /** `process_batch`: appends to `all_results` paper by paper. */
  method ProcessBatch<R>(papers: seq<Paper>, allResults: seq<R>, exists_: string -> bool, saved: string -> Saved<R>,
                         analyse: (Pass, string, int) -> Option<R>) returns (results: seq<R>)
    ensures results == allResults + BatchResults(papers, exists_, saved, analyse)
  {
    results := allResults;
    for i := 0 to |papers|
      invariant results == allResults + BatchResults(papers[..i], exists_, saved, analyse)
    {
      assert papers[..i + 1][..i] == papers[..i];
      var p := papers[i];
      if !exists_(p.name) {
        continue;
      }
      var s := saved(p.name);
      if !s.NotProcessed? {
        if s.Stored? {
          results := results + [s.result];
        }
        continue;
      }
      var pass := if p.pages < 20 then SinglePass else MultiPass;
      var r := analyse(pass, p.name, p.pages);
      if r.Some? {
        results := results + [r.value];
      }
    }
    assert papers[..|papers|] == papers;
  }

  lemma BatchResultsAppend<R>(a: seq<Paper>, b: seq<Paper>, exists_: string -> bool, saved: string -> Saved<R>,
                              analyse: (Pass, string, int) -> Option<R>)
    ensures BatchResults(a + b, exists_, saved, analyse) ==
            BatchResults(a, exists_, saved, analyse) + BatchResults(b, exists_, saved, analyse)
    decreases |b|
  {
    if |b| > 0 {
      BatchResultsAppend(a, b[..|b| - 1], exists_, saved, analyse);
      assert (a + b)[..|a + b| - 1] == a + b[..|b| - 1];
    } else {
      assert a + b == a;
    }
  }

  /**
   * A paper whose PDF is missing adds nothing, and one already processed
   * adds its saved result whatever the analyser would do: it is never
   * analysed again.
   */
  lemma SkipsAndReuses<R>(p: Paper, exists_: string -> bool, saved: string -> Saved<R>,
                          analyse: (Pass, string, int) -> Option<R>, other: (Pass, string, int) -> Option<R>)
    ensures !exists_(p.name) ==> PaperResult(p, exists_, saved, analyse) == []
    ensures saved(p.name).Stored? && exists_(p.name) ==> PaperResult(p, exists_, saved, analyse) == [saved(p.name).result]
    ensures !saved(p.name).NotProcessed? ==> PaperResult(p, exists_, saved, analyse) == PaperResult(p, exists_, saved, other)
    ensures |PaperResult(p, exists_, saved, analyse)| <= 1
  {
  }

  /**
   * `main`'s loop over `range(0, len(ALL_PAPERS), BATCH_SIZE)`: the batches
   * it runs are the pieces of the catalogue, there are ceil(n / size) of
   * them, and together they give the same results as one pass over all the
   * papers in order.
   */
  method RunBatches<R>(papers: seq<Paper>, size: nat, exists_: string -> bool, saved: string -> Saved<R>,
                       analyse: (Pass, string, int) -> Option<R>) returns (results: seq<R>, batches: seq<seq<Paper>>)
    requires size > 0
    ensures batches == Pieces(papers, size)
    ensures |batches| == (|papers| + size - 1) / size
    ensures results == BatchResults(papers, exists_, saved, analyse)
  {
    results := [];
    batches := [];
    var i := 0;
    while i < |papers|
      invariant 0 <= i <= |papers|
      invariant BatchesSoFar(papers, size, i, batches, results, exists_, saved, analyse)
      decreases |papers| - i
    {
      i, batches, results := RunBatch(papers, size, i, batches, results, exists_, saved, analyse);
    }
    assert papers[..i] == papers;
    assert papers[i..] == [];
    PiecesCover(papers, size);
  }

  /** After the batches so far: they are the first pieces of the catalogue, and the results are those of their papers. */
  ghost predicate BatchesSoFar<R>(papers: seq<Paper>, size: nat, i: nat, batches: seq<seq<Paper>>, results: seq<R>,
                            exists_: string -> bool, saved: string -> Saved<R>, analyse: (Pass, string, int) -> Option<R>)
    requires size > 0 && i <= |papers|
  {
    Concat(batches) == papers[..i] &&
    batches + Pieces(papers[i..], size) == Pieces(papers, size) &&
    results == BatchResults(papers[..i], exists_, saved, analyse)
  }

  /** One pass of the batch loop: the next `size` papers, or what is left. */
  method RunBatch<R>(papers: seq<Paper>, size: nat, i: nat, batches: seq<seq<Paper>>, results: seq<R>,
                     exists_: string -> bool, saved: string -> Saved<R>, analyse: (Pass, string, int) -> Option<R>)
      returns (end: nat, batches': seq<seq<Paper>>, results': seq<R>)
    requires size > 0 && i < |papers|
    requires BatchesSoFar(papers, size, i, batches, results, exists_, saved, analyse)
    ensures i < end <= |papers|
    ensures BatchesSoFar(papers, size, end, batches', results', exists_, saved, analyse)
  {
    end := if i + size < |papers| then i + size else |papers|;
    var batch := papers[i..end];
    results' := ProcessBatch(batch, results, exists_, saved, analyse);
    batches' := batches + [batch];
    AdjacentSlices(papers, i, end);
    BatchResultsAppend(papers[..i], batch, exists_, saved, analyse);
    assert results' == BatchResults(papers[..end], exists_, saved, analyse);
    ConcatSnoc(batches, batch);
    assert Concat(batches') == papers[..end];
    PiecesAt(papers, i, size);
    AppendAssoc(batches, [batch], Pieces(papers[end..], size));
  }

  lemma AppendAssoc<T>(a: seq<T>, b: seq<T>, c: seq<T>)
    ensures a + b + c == a + (b + c)
  {
  }

  lemma AdjacentSlices<T>(s: seq<T>, i: nat, j: nat)
    requires i <= j <= |s|
    ensures s[..i] + s[i..j] == s[..j]
  {
    var a := s[..i] + s[i..j];
    assert |a| == j;
    forall k | 0 <= k < j
      ensures a[k] == s[k]
    {
      if k < i {
        assert a[k] == s[..i][k];
      } else {
        assert a[k] == s[i..j][k - i];
      }
    }
  }

  /** The piece that starts at `i`, and the pieces after it. */
  lemma PiecesAt<T>(s: seq<T>, i: nat, size: nat)
    requires size > 0 && i < |s|
    ensures var end := if i + size < |s| then i + size else |s|;
            Pieces(s[i..], size) == [s[i..end]] + Pieces(s[end..], size)
  {
    var rest := s[i..];
    if |rest| <= size {
      assert s[i..|s|] == rest;
      assert s[|s|..] == [];
    } else {
      assert rest[..size] == s[i..i + size] && rest[size..] == s[i + size..];
    }
  }

  lemma ConcatSnoc<T>(ps: seq<seq<T>>, p: seq<T>)
    ensures Concat(ps + [p]) == Concat(ps) + p
  {
    if |ps| > 0 {
      ConcatSnoc(ps[1..], p);
      assert (ps + [p])[1..] == ps[1..] + [p];
    } else {
      assert Concat([p]) == p + Concat([]);
    }
  }

  /** With the batch size of one, every paper of the catalogue is its own batch. */
  lemma CatalogueBatches()
    ensures |Pieces(AllPapers, BatchSize)| == |AllPapers|
    ensures Concat(Pieces(AllPapers, BatchSize)) == AllPapers
  {
    PiecesCover(AllPapers, BatchSize);
  }
}
