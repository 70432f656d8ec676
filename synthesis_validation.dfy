/**
 * The two validators the synthesis stage runs over the model's briefing
 * (`validate_signal_map`, `validate_numbers_that_matter`): both compare the
 * number tokens of one text with those of another, set a `verified` flag on
 * every entry and return a log of what they flagged.
 */
module SynthesisValidation {
  import opened Wrappers
  import opened PyNum
  import opened Text
  import opened Numerals
  import opened Synthesis

  /** One line of the validation log, without its formatting. */
  datatype ValidationNote =
    | Legacy(category: string)
    | SignalMismatch(category: string, signalOnly: set<string>, signal: string, evidence: string)
    | NumberMismatch(metric: string, field: string, token: string, estimateToken: string,
                     estimate: string, fieldValue: string)

  // ---------------------------------------------------------------------
  // Signal map

  /**
   * A signal-map entry: a legacy bare string, or a dictionary whose
   * missing 'signal' and 'evidence' read as ''.
   */
  datatype SignalEntry =
    | Bare(text: string)
    | Structured(signal: string, evidence: string, source: Option<string>, verified: Option<bool>)

  const Categories: seq<string> := ["accelerating", "stalling", "inflecting"]

  /** `set(signal_nums) - set(evidence_nums)`. */
  function SignalOnly(signal: string, evidence: string): set<string>
  {
    set t | t in NumberTokens(signal) && t !in NumberTokens(evidence)
  }

  /** The signal quotes a number its evidence lacks, and the evidence quotes numbers at all. */
  predicate Mismatch(signal: string, evidence: string)
  {
    SignalOnly(signal, evidence) != {} && |NumberTokens(evidence)| > 0
  }

  /**
   * One entry after validation: a bare string becomes an unverified entry
   * with empty evidence and source 'unknown'; a dictionary keeps its
   * fields and is verified unless its signal and evidence mismatch.
   */
  function ValidateEntry(e: SignalEntry): (r: SignalEntry)
    ensures r.Structured? && r.verified.Some?
    ensures r.verified.value <==> e.Structured? && !Mismatch(e.signal, e.evidence)
    ensures e.Bare? ==> r == Structured(e.text, "", Some("unknown"), Some(false))
    ensures e.Structured? ==> r.signal == e.signal && r.evidence == e.evidence && r.source == e.source
  {
    match e
    case Bare(text) => Structured(text, "", Some("unknown"), Some(false))
    case Structured(signal, evidence, _, _) => e.(verified := Some(!Mismatch(signal, evidence)))
  }

  /** The log lines one entry adds: one for each entry that ends unverified, none otherwise. */
  function EntryNotes(category: string, e: SignalEntry): (r: seq<ValidationNote>)
    ensures |r| <= 1
    ensures |r| == 0 <==> ValidateEntry(e).verified == Some(true)
  {
    match e
    case Bare(_) => [Legacy(category)]
    case Structured(signal, evidence, _, _) =>
      if Mismatch(signal, evidence)
      then [SignalMismatch(category, SignalOnly(signal, evidence), Prefix(signal, 80), Prefix(evidence, 80))]
      else []
  }

  function ValidatedEntries(es: seq<SignalEntry>): (r: seq<SignalEntry>)
    ensures |r| == |es|
    ensures forall i :: 0 <= i < |es| ==> r[i] == ValidateEntry(es[i])
  {
    if |es| == 0 then [] else ValidatedEntries(es[..|es| - 1]) + [ValidateEntry(es[|es| - 1])]
  }

  function CategoryNotes(category: string, es: seq<SignalEntry>): seq<ValidationNote>
  {
    if |es| == 0 then [] else CategoryNotes(category, es[..|es| - 1]) + EntryNotes(category, es[|es| - 1])
  }

  /** How many entries of a category end unverified. */
  function CountUnverified(es: seq<SignalEntry>): nat
  {
    if |es| == 0 then 0
    else CountUnverified(es[..|es| - 1]) + (if ValidateEntry(es[|es| - 1]).verified == Some(false) then 1 else 0)
  }

  /** The log has exactly one line per entry that ends unverified. */
  lemma {:induction false} OneNotePerUnverifiedEntry(category: string, es: seq<SignalEntry>)
    ensures |CategoryNotes(category, es)| == CountUnverified(es)
  {
    if |es| > 0 {
      OneNotePerUnverifiedEntry(category, es[..|es| - 1]);
    }
  }

  /** Evidence that quotes no number cannot contradict its signal. */
  lemma EvidenceWithoutNumbersVerifies(signal: string, evidence: string, source: Option<string>, verified: Option<bool>)
    requires forall i :: 0 <= i < |evidence| ==> !IsNumberChar(evidence[i])
    ensures ValidateEntry(Structured(signal, evidence, source, verified)).verified == Some(true)
  {
    NoTokensIffNoNumberChars(evidence);
  }

  /** A signal whose every number appears in its evidence is verified. */
  lemma QuotedSignalVerifies(signal: string, evidence: string, source: Option<string>, verified: Option<bool>)
    requires forall t :: t in NumberTokens(signal) ==> t in NumberTokens(evidence)
    ensures ValidateEntry(Structured(signal, evidence, source, verified)).verified == Some(true)
  {
    assert SignalOnly(signal, evidence) == {};
  }

  /**
   * Validation is idempotent on dictionary entries, but not on legacy
   * strings: a converted string has empty evidence, so a second pass
   * marks it verified.
   */
  lemma RevalidationOfLegacyEntry(text: string)
    ensures ValidateEntry(ValidateEntry(Bare(text))).verified == Some(true)
  {
    assert NumberTokens("") == [];
  }

  lemma RevalidationOfStructuredEntry(e: SignalEntry)
    requires e.Structured?
    ensures ValidateEntry(ValidateEntry(e)) == ValidateEntry(e)
  {
  }

  /** `signal_map.get(category, [])`. */
  function EntriesOf(m: map<string, seq<SignalEntry>>, c: string): seq<SignalEntry>
  {
    if c in m then m[c] else []
  }

  /** The signal map once the first `n` categories are validated; each category is (re)written, even when absent. */
  function ValidatedMap(m: map<string, seq<SignalEntry>>, n: nat): map<string, seq<SignalEntry>>
    requires n <= |Categories|
  {
    if n == 0 then m
    else ValidatedMap(m, n - 1)[Categories[n - 1] := ValidatedEntries(EntriesOf(m, Categories[n - 1]))]
  }

  /** The log lines of the first `n` categories, in category order. */
  function SignalLog(m: map<string, seq<SignalEntry>>, n: nat): seq<ValidationNote>
    requires n <= |Categories|
  {
    if n == 0 then [] else SignalLog(m, n - 1) + CategoryNotes(Categories[n - 1], EntriesOf(m, Categories[n - 1]))
  }

  /** The three categories are distinct. */
  lemma CategoryNotYetSeen(i: nat)
    requires i < |Categories|
    ensures Categories[i] !in Categories[..i]
  {
    assert Categories[0] == "accelerating" && Categories[1] == "stalling" && Categories[2] == "inflecting";
    assert Categories[..1] == ["accelerating"] && Categories[..2] == ["accelerating", "stalling"];
  }

  /** A category not yet reached still holds its original entries. */
  lemma {:induction false} LaterCategoryUntouched(m: map<string, seq<SignalEntry>>, n: nat, c: string)
    requires n <= |Categories| && c !in Categories[..n]
    ensures EntriesOf(ValidatedMap(m, n), c) == EntriesOf(m, c)
  {
    if n > 0 {
      assert Categories[n - 1] in Categories[..n];
      assert Categories[..n - 1] <= Categories[..n];
      LaterCategoryUntouched(m, n - 1, c);
    }
  }

  /**
   * After validation the three categories hold their validated entries
   * (an absent category becomes present and empty), and every other key
   * of the signal map is unchanged.
   */
  lemma {:induction false} ValidatedMapContents(m: map<string, seq<SignalEntry>>)
    ensures var r := ValidatedMap(m, |Categories|);
            (forall c :: c in Categories ==> c in r && r[c] == ValidatedEntries(EntriesOf(m, c))) &&
            (forall k :: k !in Categories ==> (k in r <==> k in m) && (k in m ==> r[k] == m[k]))
  {
    assert Categories[0] == "accelerating" && Categories[1] == "stalling" && Categories[2] == "inflecting";
    assert ValidatedMap(m, 0) == m;
    var r1 := ValidatedMap(m, 1);
    var r2 := ValidatedMap(m, 2);
    var r := ValidatedMap(m, 3);
    assert r1 == m["accelerating" := ValidatedEntries(EntriesOf(m, "accelerating"))];
    assert r2 == r1["stalling" := ValidatedEntries(EntriesOf(m, "stalling"))];
    assert r == r2["inflecting" := ValidatedEntries(EntriesOf(m, "inflecting"))];
  }

  lemma CategoryStep(category: string, es: seq<SignalEntry>, i: nat)
    requires i < |es|
    ensures ValidatedEntries(es[..i + 1]) == ValidatedEntries(es[..i]) + [ValidateEntry(es[i])]
    ensures CategoryNotes(category, es[..i + 1]) == CategoryNotes(category, es[..i]) + EntryNotes(category, es[i])
  {
    assert es[..i + 1][..i] == es[..i];
  }

  /** One pass of the category loop: the entry as validated, and the line it logs if any. */
  method ValidateSignalEntry(category: string, entry: SignalEntry) returns (v: SignalEntry, notes: seq<ValidationNote>)
    ensures v == ValidateEntry(entry)
    ensures notes == EntryNotes(category, entry)
  {
    match entry {
      case Bare(text) =>
        v := Structured(text, "", Some("unknown"), Some(false));
        notes := [Legacy(category)];
      case Structured(signal, evidence, _, _) =>
        var signalOnly := SignalOnly(signal, evidence);
        var verified := true;
        notes := [];
        if signalOnly != {} && |NumberTokens(evidence)| > 0 {
          notes := [SignalMismatch(category, signalOnly, Prefix(signal, 80), Prefix(evidence, 80))];
          verified := false;
        }
        v := entry.(verified := Some(verified));
    }
  }

  /** Validates one category's entries in order, collecting the log. */
  method ValidateCategory(category: string, entries: seq<SignalEntry>)
    returns (validated: seq<SignalEntry>, notes: seq<ValidationNote>)
    ensures validated == ValidatedEntries(entries)
    ensures notes == CategoryNotes(category, entries)
  {
    validated, notes := [], [];
    var i := 0;
    while i < |entries|
      invariant 0 <= i <= |entries|
      invariant validated == ValidatedEntries(entries[..i])
      invariant notes == CategoryNotes(category, entries[..i])
    {
      CategoryStep(category, entries, i);
      var v, n := ValidateSignalEntry(category, entries[i]);
      validated := validated + [v];
      notes := notes + n;
      i := i + 1;
    }
    assert entries[..i] == entries;
  }

  // ---------------------------------------------------------------------
  // Numbers that matter

  /**
   * A numbers-that-matter entry: its metric, its consensus estimate text,
   * its other text fields by name, and the flag validation sets.
   */
  datatype NumberEntry = NumberEntry(metric: string, estimate: string, fields: map<string, string>,
                                     verified: Option<bool>)

  /** In an earnings review the threshold fields carry derived economics and are not checked. */
  function FieldsToCheck(mode: Option<Mode>): (r: seq<string>)
    ensures "why_it_matters" in r
    ensures "bullish_threshold" in r <==> mode != Some(EarningsReview)
    ensures "bearish_threshold" in r <==> mode != Some(EarningsReview)
  {
    if mode == Some(EarningsReview) then ["why_it_matters"]
    else ["bullish_threshold", "bearish_threshold", "why_it_matters"]
  }

  /** `entry.get(name, '')`. */
  function FieldValue(e: NumberEntry, name: string): string
  {
    if name in e.fields then e.fields[name] else ""
  }

  /**
   * Two positive numbers that differ, the larger at most a quarter above the
   * smaller: the ratio test stated without division (see `CloseIsRatio`).
   */
  predicate Close(a: real, b: real)
    requires a > 0.0 && b > 0.0
  {
    a != b && Max(a, b) <= 1.25 * Min(a, b)
  }

  /** `1.0 < max(a, b) / min(a, b) <= 1.25`. */
  lemma CloseIsRatio(a: real, b: real)
    requires a > 0.0 && b > 0.0
    ensures Close(a, b) <==> 1.0 < Max(a, b) / Min(a, b) <= 1.25
  {
    QuotientBound(Max(a, b), Min(a, b), 1.25);
    QuotientBound(Max(a, b), Min(a, b), 1.0);
  }

  /** The two tokens parse (commas removed) to positive numbers that are close. */
  predicate TokensClose(fieldToken: string, estimateToken: string)
  {
    var a := ParseDecimal(fieldToken);
    var b := ParseDecimal(estimateToken);
    a.Some? && b.Some? && a.value > 0.0 && b.value > 0.0 && Close(a.value, b.value)
  }

  lemma TokensCloseSymmetric(s: string, t: string)
    ensures TokensClose(s, t) <==> TokensClose(t, s)
  {
  }

  lemma ParseWholeNumbers()
    ensures ParseDecimal("32") == Some(32.0)
    ensures ParseDecimal("40") == Some(40.0)
  {
    assert NatToString(32) == NatToString(3) + "2" == "32";
    ParseNatToString(32);
    assert NatToString(40) == NatToString(4) + "0" == "40";
    ParseNatToString(40);
  }

  lemma ParseDecimalFraction()
    ensures ParseDecimal("29.5") == Some(29.5)
  {
    var t := "29.5";
    StripCommasAbsent(t);
    FractionRuns();
    assert t[..2] == "29" && t[3..] == "5";
    FractionDigits();
    assert Pow10(1) == 10;
  }

  lemma FractionRuns()
    ensures RunOfDigits("29.5") == 2 && RunOfDigits("5") == 1
  {
    assert "29.5"[1..] == "9.5" && "9.5"[1..] == ".5" && "5"[1..] == "";
    assert RunOfDigits(".5") == 0;
    assert RunOfDigits("9.5") == 1;
  }

  lemma FractionDigits()
    ensures DigitsValue("29") == 29 && DigitsValue("5") == 5
  {
    assert "29"[..1] == "2" && "2"[..0] == "" && "5"[..0] == "";
    assert DigitsValue("2") == 2;
  }

  /** An estimate of 29.5 flags a field quoting 32 (about 8% off) but not one quoting 40, nor 29.5 itself. */
  lemma TokensCloseExamples()
    ensures TokensClose("32", "29.5") && TokensClose("29.5", "32")
    ensures !TokensClose("40", "29.5")
    ensures !TokensClose("29.5", "29.5")
  {
    ParseWholeNumbers();
    ParseDecimalFraction();
  }

  /** The notes for one field token against the first estimate tokens `ests`. */
  function AgainstEstimates(e: NumberEntry, field: string, fieldToken: string, ests: seq<string>): seq<ValidationNote>
  {
    if |ests| == 0 then []
    else
      AgainstEstimates(e, field, fieldToken, ests[..|ests| - 1]) +
      (if TokensClose(fieldToken, ests[|ests| - 1])
       then [NumberMismatch(e.metric, field, fieldToken, ests[|ests| - 1], Prefix(e.estimate, 80),
                            Prefix(FieldValue(e, field), 80))]
       else [])
  }

  /** A field token quoted verbatim in the estimate is accepted without comparison. */
  function TokenNotes(e: NumberEntry, field: string, fieldToken: string, ests: seq<string>): seq<ValidationNote>
  {
    if fieldToken in ests then [] else AgainstEstimates(e, field, fieldToken, ests)
  }

  function FieldTokensNotes(e: NumberEntry, field: string, fieldTokens: seq<string>, ests: seq<string>): seq<ValidationNote>
  {
    if |fieldTokens| == 0 then []
    else FieldTokensNotes(e, field, fieldTokens[..|fieldTokens| - 1], ests) +
         TokenNotes(e, field, fieldTokens[|fieldTokens| - 1], ests)
  }

  /** An empty or missing field is skipped. */
  function FieldNotes(e: NumberEntry, field: string, ests: seq<string>): seq<ValidationNote>
  {
    var v := FieldValue(e, field);
    if |v| == 0 then [] else FieldTokensNotes(e, field, NumberTokens(v), ests)
  }

  /** The notes of each field in turn, laid end to end. */
  function JoinNotes(notesOf: string -> seq<ValidationNote>, fields: seq<string>): seq<ValidationNote>
  {
    if |fields| == 0 then [] else JoinNotes(notesOf, fields[..|fields| - 1]) + notesOf(fields[|fields| - 1])
  }

  function FieldNotesOf(e: NumberEntry, ests: seq<string>): string -> seq<ValidationNote>
  {
    field => FieldNotes(e, field, ests)
  }

  function FieldsNotes(e: NumberEntry, fields: seq<string>, ests: seq<string>): seq<ValidationNote>
  {
    JoinNotes(FieldNotesOf(e, ests), fields)
  }

  lemma JoinNotesStep(notesOf: string -> seq<ValidationNote>, fields: seq<string>, i: nat)
    requires i < |fields|
    ensures JoinNotes(notesOf, fields[..i + 1]) == JoinNotes(notesOf, fields[..i]) + notesOf(fields[i])
  {
    assert fields[..i + 1][..i] == fields[..i];
  }

  /** The joined notes are empty exactly when every field's notes are. */
  lemma {:induction false} JoinNotesEmpty(notesOf: string -> seq<ValidationNote>, fields: seq<string>)
    ensures |JoinNotes(notesOf, fields)| == 0 <==> forall i :: 0 <= i < |fields| ==> |notesOf(fields[i])| == 0
  {
    if |fields| > 0 {
      var n := |fields| - 1;
      var init := fields[..n];
      JoinNotesEmpty(notesOf, init);
      assert forall i :: 0 <= i < n ==> init[i] == fields[i];
    }
  }

  /** The log lines of one entry; an estimate without numbers has nothing to compare against. */
  function NumberNotes(e: NumberEntry, mode: Option<Mode>): seq<ValidationNote>
  {
    var ests := NumberTokens(e.estimate);
    if |ests| == 0 then [] else FieldsNotes(e, FieldsToCheck(mode), ests)
  }

  /** The entry with its `verified` flag set: true exactly when it produced no log line. */
  function ValidateNumber(e: NumberEntry, mode: Option<Mode>): NumberEntry
  {
    e.(verified := Some(|NumberNotes(e, mode)| == 0))
  }

  /** A field token that is not one of the estimate's tokens but parses close to one of them. */
  ghost predicate TokenFlagged(t: string, ests: seq<string>)
  {
    t !in ests && exists en :: en in ests && TokensClose(t, en)
  }

  /** A field that quotes a flagged token. */
  ghost predicate FieldFlagged(e: NumberEntry, field: string, ests: seq<string>)
  {
    exists t :: t in NumberTokens(FieldValue(e, field)) && TokenFlagged(t, ests)
  }

  /** The flagging rule stated directly: some checked field quotes a flagged token. */
  ghost predicate Flagged(e: NumberEntry, mode: Option<Mode>)
  {
    exists field :: field in FieldsToCheck(mode) && FieldFlagged(e, field, NumberTokens(e.estimate))
  }

  lemma {:induction false} AgainstEstimatesEmpty(e: NumberEntry, field: string, t: string, ests: seq<string>)
    ensures |AgainstEstimates(e, field, t, ests)| == 0 <==> forall en :: en in ests ==> !TokensClose(t, en)
  {
    if |ests| > 0 {
      var init := ests[..|ests| - 1];
      AgainstEstimatesEmpty(e, field, t, init);
      assert ests == init + [ests[|ests| - 1]];
    }
  }

  lemma TokenNotesEmpty(e: NumberEntry, field: string, t: string, ests: seq<string>)
    ensures |TokenNotes(e, field, t, ests)| == 0 <==> !TokenFlagged(t, ests)
  {
    AgainstEstimatesEmpty(e, field, t, ests);
  }

  lemma {:induction false} FieldTokensNotesEmpty(e: NumberEntry, field: string, fts: seq<string>, ests: seq<string>)
    ensures |FieldTokensNotes(e, field, fts, ests)| == 0 <==> forall t :: t in fts ==> !TokenFlagged(t, ests)
  {
    if |fts| > 0 {
      var init := fts[..|fts| - 1];
      var last := fts[|fts| - 1];
      FieldTokensNotesEmpty(e, field, init, ests);
      TokenNotesEmpty(e, field, last, ests);
      assert fts == init + [last];
    }
  }

  lemma FieldNotesEmpty(e: NumberEntry, field: string, ests: seq<string>)
    ensures |FieldNotes(e, field, ests)| == 0 <==> !FieldFlagged(e, field, ests)
  {
    FieldTokensNotesEmpty(e, field, NumberTokens(FieldValue(e, field)), ests);
    if |FieldValue(e, field)| == 0 {
      assert NumberTokens(FieldValue(e, field)) == [];
    }
  }

  lemma FieldsNotesEmpty(e: NumberEntry, fields: seq<string>, ests: seq<string>)
    ensures |FieldsNotes(e, fields, ests)| == 0 <==> forall field :: field in fields ==> !FieldFlagged(e, field, ests)
  {
    JoinNotesEmpty(FieldNotesOf(e, ests), fields);
    forall i | 0 <= i < |fields|
      ensures |FieldNotes(e, fields[i], ests)| == 0 <==> !FieldFlagged(e, fields[i], ests)
    {
      FieldNotesEmpty(e, fields[i], ests);
    }
  }

  /** An entry ends unverified exactly when it is flagged. */
  lemma UnverifiedIffFlagged(e: NumberEntry, mode: Option<Mode>)
    ensures ValidateNumber(e, mode).verified == Some(false) <==> Flagged(e, mode)
  {
    var ests := NumberTokens(e.estimate);
    if |ests| > 0 {
      FieldsNotesEmpty(e, FieldsToCheck(mode), ests);
    }
  }

  /** An estimate that quotes no number leaves the entry verified. */
  lemma EstimateWithoutNumbersVerifies(e: NumberEntry, mode: Option<Mode>)
    requires forall i :: 0 <= i < |e.estimate| ==> !IsNumberChar(e.estimate[i])
    ensures ValidateNumber(e, mode).verified == Some(true)
  {
    NoTokensIffNoNumberChars(e.estimate);
  }

  /** Fields that quote only the estimate's own numbers are verified. */
  lemma VerbatimNumbersVerify(e: NumberEntry, mode: Option<Mode>)
    requires forall field, t :: field in FieldsToCheck(mode) && t in NumberTokens(FieldValue(e, field)) ==>
                                t in NumberTokens(e.estimate)
    ensures ValidateNumber(e, mode).verified == Some(true)
  {
    UnverifiedIffFlagged(e, mode);
  }

  /**
   * In an earnings review the thresholds are not read: two entries that
   * agree on the estimate and on `why_it_matters` get the same verdict.
   */
  lemma EarningsReviewIgnoresThresholds(e1: NumberEntry, e2: NumberEntry)
    requires e1.estimate == e2.estimate
    requires FieldValue(e1, "why_it_matters") == FieldValue(e2, "why_it_matters")
    ensures ValidateNumber(e1, Some(EarningsReview)).verified == ValidateNumber(e2, Some(EarningsReview)).verified
  {
    UnverifiedIffFlagged(e1, Some(EarningsReview));
    UnverifiedIffFlagged(e2, Some(EarningsReview));
    FlaggedInReview(e1);
    FlaggedInReview(e2);
    FieldFlaggedByValue(e1, e2, "why_it_matters", NumberTokens(e1.estimate));
  }

  /** An earnings review checks `why_it_matters` alone. */
  lemma FlaggedInReview(e: NumberEntry)
    ensures Flagged(e, Some(EarningsReview)) <==> FieldFlagged(e, "why_it_matters", NumberTokens(e.estimate))
  {
    assert FieldsToCheck(Some(EarningsReview)) == ["why_it_matters"];
  }

  /** Whether a field is flagged depends on its text alone. */
  lemma FieldFlaggedByValue(e1: NumberEntry, e2: NumberEntry, field: string, ests: seq<string>)
    requires FieldValue(e1, field) == FieldValue(e2, field)
    ensures FieldFlagged(e1, field, ests) <==> FieldFlagged(e2, field, ests)
  {
  }

  /** Each entry passed through `validate`, in order. */
  function MapEntries(validate: NumberEntry -> NumberEntry, es: seq<NumberEntry>): (r: seq<NumberEntry>)
    ensures |r| == |es|
    ensures forall i :: 0 <= i < |es| ==> r[i] == validate(es[i])
  {
    if |es| == 0 then [] else MapEntries(validate, es[..|es| - 1]) + [validate(es[|es| - 1])]
  }

  function ValidateNumberOf(mode: Option<Mode>): NumberEntry -> NumberEntry
  {
    e => ValidateNumber(e, mode)
  }

  function ValidatedNumbers(es: seq<NumberEntry>, mode: Option<Mode>): (r: seq<NumberEntry>)
    ensures |r| == |es|
    ensures forall i :: 0 <= i < |es| ==> r[i] == ValidateNumber(es[i], mode)
  {
    MapEntries(ValidateNumberOf(mode), es)
  }

  function NumbersLog(es: seq<NumberEntry>, mode: Option<Mode>): seq<ValidationNote>
  {
    if |es| == 0 then [] else NumbersLog(es[..|es| - 1], mode) + NumberNotes(es[|es| - 1], mode)
  }

  lemma NumbersStep(es: seq<NumberEntry>, i: nat, mode: Option<Mode>)
    requires i < |es|
    ensures ValidatedNumbers(es[..i + 1], mode) == ValidatedNumbers(es[..i], mode) + [ValidateNumber(es[i], mode)]
    ensures NumbersLog(es[..i + 1], mode) == NumbersLog(es[..i], mode) + NumberNotes(es[i], mode)
  {
    assert es[..i + 1][..i] == es[..i];
  }

  /** Compares one field token with every estimate token, as the inner loop does. */
  method CheckToken(e: NumberEntry, field: string, fieldToken: string, ests: seq<string>)
    returns (notes: seq<ValidationNote>)
    ensures notes == TokenNotes(e, field, fieldToken, ests)
  {
    notes := [];
    if fieldToken in ests {
      return;
    }
    var k := 0;
    while k < |ests|
      invariant 0 <= k <= |ests|
      invariant notes == AgainstEstimates(e, field, fieldToken, ests[..k])
    {
      assert ests[..k + 1][..k] == ests[..k];
      var a := ParseDecimal(fieldToken);
      var b := ParseDecimal(ests[k]);
      var close := a.Some? && b.Some? && a.value > 0.0 && b.value > 0.0
                   && 1.0 < Max(a.value, b.value) / Min(a.value, b.value) <= 1.25;
      if a.Some? && b.Some? && a.value > 0.0 && b.value > 0.0 {
        CloseIsRatio(a.value, b.value);
      }
      assert close == TokensClose(fieldToken, ests[k]);
      if close {
        notes := notes + [NumberMismatch(e.metric, field, fieldToken, ests[k], Prefix(e.estimate, 80),
                                         Prefix(FieldValue(e, field), 80))];
      }
      k := k + 1;
    }
    assert ests[..k] == ests;
  }

  /** Checks one field: every number token it quotes, in order. */
  method CheckField(e: NumberEntry, field: string, ests: seq<string>) returns (notes: seq<ValidationNote>)
    ensures notes == FieldNotes(e, field, ests)
  {
    notes := [];
    var value := FieldValue(e, field);
    if |value| == 0 {
      return;
    }
    var fieldTokens := NumberTokens(value);
    var j := 0;
    while j < |fieldTokens|
      invariant 0 <= j <= |fieldTokens|
      invariant notes == FieldTokensNotes(e, field, fieldTokens[..j], ests)
    {
      assert fieldTokens[..j + 1][..j] == fieldTokens[..j];
      var tokenNotes := CheckToken(e, field, fieldTokens[j], ests);
      notes := notes + tokenNotes;
      j := j + 1;
    }
    assert fieldTokens[..j] == fieldTokens;
  }

  /** Validates one entry: the new flag and the log lines it produced. */
  method CheckNumberEntry(e: NumberEntry, mode: Option<Mode>) returns (verified: bool, notes: seq<ValidationNote>)
    ensures notes == NumberNotes(e, mode)
    ensures verified <==> |notes| == 0
  {
    notes := [];
    verified := true;
    var ests := NumberTokens(e.estimate);
    if |ests| == 0 {
      return;
    }
    var fields := FieldsToCheck(mode);
    var i := 0;
    while i < |fields|
      invariant 0 <= i <= |fields|
      invariant notes == FieldsNotes(e, fields[..i], ests)
      invariant verified <==> |notes| == 0
    {
      JoinNotesStep(FieldNotesOf(e, ests), fields, i);
      var fieldNotes := CheckField(e, fields[i], ests);
      if |fieldNotes| > 0 {
        verified := false;
      }
      notes := notes + fieldNotes;
      i := i + 1;
    }
    assert fields[..i] == fields;
  }

  /** One pass of the entry loop: the entry with its flag set, and its log lines. */
  method ValidateNumberEntry(e: NumberEntry, mode: Option<Mode>) returns (r: NumberEntry, notes: seq<ValidationNote>)
    ensures r == ValidateNumber(e, mode)
    ensures notes == NumberNotes(e, mode)
  {
    var verified;
    verified, notes := CheckNumberEntry(e, mode);
    r := e.(verified := Some(verified));
  }

  /** The entry loop of `validate_numbers_that_matter`. */
  method ValidateNumberList(es: seq<NumberEntry>, mode: Option<Mode>)
    returns (validated: seq<NumberEntry>, log: seq<ValidationNote>)
    ensures validated == ValidatedNumbers(es, mode)
    ensures log == NumbersLog(es, mode)
  {
    validated, log := [], [];
    var i := 0;
    while i < |es|
      invariant 0 <= i <= |es|
      invariant validated == ValidatedNumbers(es[..i], mode)
      invariant log == NumbersLog(es[..i], mode)
    {
      NumbersStep(es, i, mode);
      var entry, notes := ValidateNumberEntry(es[i], mode);
      validated := validated + [entry];
      log := log + notes;
      i := i + 1;
    }
    assert es[..i] == es;
  }

  // ---------------------------------------------------------------------
  // The briefing the validators update

  /**
   * The parts of the synthesis dictionary the validators read and write:
   * the signal map by category and the numbers-that-matter list (a missing
   * one is empty).
   */
  class SynthesisRecord {
    var signalMap: map<string, seq<SignalEntry>>
    var numbers: seq<NumberEntry>

    constructor (signalMap: map<string, seq<SignalEntry>>, numbers: seq<NumberEntry>)
      ensures this.signalMap == signalMap && this.numbers == numbers
    {
      this.signalMap := signalMap;
      this.numbers := numbers;
    }

    /** `validate_signal_map`: each category in turn, rewritten in place. */
    method ValidateSignalMap() returns (log: seq<ValidationNote>)
      modifies this
      ensures signalMap == ValidatedMap(old(signalMap), |Categories|)
      ensures log == SignalLog(old(signalMap), |Categories|)
      ensures numbers == old(numbers)
    {
      ghost var m := signalMap;
      log := [];
      var i := 0;
      while i < |Categories|
        invariant 0 <= i <= |Categories|
        invariant signalMap == ValidatedMap(m, i)
        invariant log == SignalLog(m, i)
        invariant numbers == old(numbers)
      {
        var category := Categories[i];
        CategoryNotYetSeen(i);
        LaterCategoryUntouched(m, i, category);
        var validated, notes := ValidateCategory(category, EntriesOf(signalMap, category));
        signalMap := signalMap[category := validated];
        log := log + notes;
        assert signalMap == ValidatedMap(m, i + 1);
        assert log == SignalLog(m, i + 1);
        i := i + 1;
      }
    }

    /** `validate_numbers_that_matter`: every entry gets its flag, in order. */
    method ValidateNumbers(mode: Option<Mode>) returns (log: seq<ValidationNote>)
      modifies this
      ensures numbers == ValidatedNumbers(old(numbers), mode)
      ensures log == NumbersLog(old(numbers), mode)
      ensures signalMap == old(signalMap)
    {
      var validated;
      validated, log := ValidateNumberList(numbers, mode);
      numbers := validated;
    }
  }
}
