/**
 * The two CSV record types and their row codecs: the density reference
 * catalog (`id, ingredient, normalised_form, density, source`) and the
 * unresolved-ingredient rows (`popularity, density_ingredient, action,
 * match_to, density, example[, confidence]`).
 *
 * Floating point is not modelled: a float32 is an opaque bit pattern, and
 * strconv.ParseFloat and the "%f" rendering are passed in as functions
 * (`parseFloat`, `format`) about which nothing is assumed.
 */
module Models {
  import opened Wrappers
  import opened Text
  import opened Strconv

  /** An IEEE-754 single, kept opaque. */
  datatype Float32 = Float32(bits: bv32)

  datatype DensityReferenceRecord = DensityReferenceRecord(
    id: GoInt,
    ingredient: string,
    normalised: string,
    density: Float32,
    source: string)

  datatype MissingDensitiesRecord = MissingDensitiesRecord(
    popularity: GoInt,
    ingredient: string,
    action: Option<string>,
    matchTo: Option<string>,
    density: Option<Float32>,
    example: string,
    confidence: string)

  /** The id a catalog row gets when its id column is empty. */
  const UnassignedId: GoInt := -1

  datatype RowError =
    | FieldCount(count: nat)
    | InvalidId(text: string)
    | InvalidDensity(text: string)
    | InvalidPopularity(text: string)

  datatype DensityError =
    | CouldNotParse(text: string)
    | ConversionFailed(token: string)

  /** The five catalog columns: the id through Itoa, the density through `format`. */
  function DensityReferenceToCsv(r: DensityReferenceRecord, format: Float32 -> string): (row: seq<string>)
    ensures |row| == 5
    ensures Atoi(row[0]) == Some(r.id)
    ensures row[1] == r.ingredient && row[2] == r.normalised && row[3] == format(r.density) && row[4] == r.source
  {
    AtoiItoa(r.id);
    [Itoa(r.id), r.ingredient, r.normalised, format(r.density), r.source]
  }

  /** Renders an optional value, nil as the empty string. */
  function OrEmpty(o: Option<string>): string {
    match o
    case Some(v) => v
    case None => ""
  }

  /**
   * The seven output columns in the order popularity, ingredient, action,
   * match_to, density, example, confidence; absent values become "".
   */
  function MissingDensitiesToCsv(r: MissingDensitiesRecord, format: Float32 -> string): (row: seq<string>)
    ensures |row| == 7
    ensures Atoi(row[0]) == Some(r.popularity)
    ensures row[1] == r.ingredient && row[5] == r.example && row[6] == r.confidence
    ensures (row[2] == "") <==> (r.action.None? || r.action == Some(""))
    ensures r.action.Some? ==> row[2] == r.action.value
    ensures r.matchTo.Some? ==> row[3] == r.matchTo.value
    ensures r.matchTo.None? ==> row[3] == ""
    ensures r.density.Some? ==> row[4] == format(r.density.value)
    ensures r.density.None? ==> row[4] == ""
  {
    AtoiItoa(r.popularity);
    var density := match r.density case Some(d) => format(d) case None => "";
    [Itoa(r.popularity), r.ingredient, OrEmpty(r.action), OrEmpty(r.matchTo), density, r.example, r.confidence]
  }

  // ---- the density column: a single value or a `low-high` range ----

  /** What the two anchored patterns of ParseDensityValue recognise lexically. */
  datatype DensitySyntax =
    | RangeSyntax(lower: string, upper: string)
    | SingleSyntax(token: string)
    | NoSyntax

  /** `^\s*([\d.]+)\s*$` on the whole of `s`: the token, if `s` has that shape. */
  function SingleToken(s: string): Option<string> {
    var i0 := SkipSpaces(s, 0);
    var j0 := SkipNumeric(s, i0);
    if j0 > i0 && SkipSpaces(s, j0) == |s| then Some(s[i0..j0]) else None
  }

  /**
   * `^\s*([\d.]+)\s*-\s*([\d.]+)\s*$`, else `^\s*([\d.]+)\s*$`, else neither.
   * After the hyphen the range pattern is the single-value pattern again.
   */
  function LexDensity(s: string): DensitySyntax {
    var i0 := SkipSpaces(s, 0);
    var j0 := SkipNumeric(s, i0);
    if j0 == i0 then NoSyntax
    else
      var h := SkipSpaces(s, j0);
      if h < |s| && s[h] == '-' then
        match SingleToken(s[h + 1..])
        case Some(upper) => RangeSyntax(s[i0..j0], upper)
        case None => NoSyntax
      else if h == |s| then SingleSyntax(s[i0..j0])
      else NoSyntax
  }

  function RangeText(w1: string, a: string, w2: string, w3: string, b: string, w4: string): string {
    w1 + (a + (w2 + ("-" + SingleText(w3, b, w4))))
  }

  function SingleText(w1: string, t: string, w2: string): string {
    w1 + (t + w2)
  }

  /** `s` is a range `a-b` of numeric tokens, with optional blanks around each part. */
  ghost predicate RangeShaped(s: string, a: string, b: string) {
    NumericToken(a) && NumericToken(b) &&
    exists w1, w2, w3, w4 {:trigger RangeText(w1, a, w2, w3, b, w4)} :: Blank(w1) && Blank(w2) && Blank(w3) && Blank(w4) && s == RangeText(w1, a, w2, w3, b, w4)
  }

  /** `s` is a single numeric token with optional blanks around it. */
  ghost predicate SingleShaped(s: string, t: string) {
    NumericToken(t) && exists w1, w2 {:trigger SingleText(w1, t, w2)} :: Blank(w1) && Blank(w2) && s == SingleText(w1, t, w2)
  }

  /**
   * strconv.ParseFloat on the chosen token: the upper bound of a range, or
   * the single value; no recognised shape, or a failed conversion, is an error.
   */
  function ParseDensityValue(parseFloat: string -> Option<Float32>, value: string): Result<Float32, DensityError>
  {
    match LexDensity(value)
    case RangeSyntax(_, upper) =>
      (match parseFloat(upper)
       case Some(v) => Success(v)
       case None => Failure(ConversionFailed(upper)))
    case SingleSyntax(token) =>
      (match parseFloat(token)
       case Some(v) => Success(v)
       case None => Failure(ConversionFailed(token)))
    case NoSyntax => Failure(CouldNotParse(value))
  }

  /** LexDensity once the scan positions are known: a range. */
  lemma LexRangeAt(s: string, i0: nat, j0: nat, h: nat, b: string)
    requires i0 <= |s| && i0 == SkipSpaces(s, 0) && j0 == SkipNumeric(s, i0) && i0 < j0
    requires h == SkipSpaces(s, j0) && h < |s| && s[h] == '-' && SingleToken(s[h + 1..]) == Some(b)
    ensures LexDensity(s) == RangeSyntax(s[i0..j0], b)
  {
  }

  /** LexDensity once the scan positions are known: a single value. */
  lemma LexSingleAt(s: string, i0: nat, j0: nat)
    requires i0 <= |s| && i0 == SkipSpaces(s, 0) && j0 == SkipNumeric(s, i0) && i0 < j0 && SkipSpaces(s, j0) == |s|
    ensures LexDensity(s) == SingleSyntax(s[i0..j0])
  {
  }

  /** What the scans of a single value from `k` pass over: blanks, a numeric token, blanks to the end. */
  lemma SingleScanned(s: string, k: nat)
    requires k <= |s|
    ensures var i := SkipSpaces(s, k); var j := SkipNumeric(s, i);
      Blank(s[k..i]) && (i < j ==> NumericToken(s[i..j])) && (SkipSpaces(s, j) == |s| ==> Blank(s[j..]))
  {
    var i := SkipSpaces(s, k);
    var j := SkipNumeric(s, i);
    SkipSpacesRun(s, k);
    SkipNumericRun(s, i);
    SkipSpacesRun(s, j);
    assert forall m :: 0 <= m < i - k ==> s[k..i][m] == s[k + m];
    assert forall m :: 0 <= m < j - i ==> s[i..j][m] == s[i + m];
    assert forall m :: 0 <= m < |s| - j ==> s[j..][m] == s[j + m];
  }

  /** `s` cut at the scan positions of a single value. */
  lemma SingleCuts(s: string, i0: nat, j0: nat)
    requires i0 <= j0 <= |s|
    ensures s == SingleText(s[..i0], s[i0..j0], s[j0..])
  {
    Peel(s, i0, j0);
  }

  lemma SingleTokenSound(s: string)
    requires SingleToken(s).Some?
    ensures SingleShaped(s, SingleToken(s).value)
  {
    var i0 := SkipSpaces(s, 0);
    var j0 := SkipNumeric(s, i0);
    SingleScanned(s, 0);
    assert s[0..i0] == s[..i0];
    SingleCuts(s, i0, j0);
  }

  /** The characters of a single value text, position by position. */
  lemma SingleIndex(w1: string, t: string, w2: string)
    ensures var s := SingleText(w1, t, w2);
      (forall k :: 0 <= k < |w1| ==> s[k] == w1[k])
      && (forall k :: |w1| <= k < |w1| + |t| ==> s[k] == t[k - |w1|])
      && (forall k :: |w1| + |t| <= k < |s| ==> s[k] == w2[k - |w1| - |t|])
      && s[|w1|..|w1| + |t|] == t
  {
    var s := SingleText(w1, t, w2);
    var middle := s[|w1|..|w1| + |t|];
    assert forall k :: 0 <= k < |t| ==> middle[k] == s[|w1| + k];
  }

  /** Where the scans stop on a single value text. */
  lemma SingleTextScans(w1: string, t: string, w2: string)
    requires Blank(w1) && NumericToken(t) && Blank(w2)
    ensures var s := SingleText(w1, t, w2);
      SkipSpaces(s, 0) == |w1| && SkipNumeric(s, |w1|) == |w1| + |t| && SkipSpaces(s, |w1| + |t|) == |s|
      && s[|w1|..|w1| + |t|] == t
  {
    var s := SingleText(w1, t, w2);
    SingleIndex(w1, t, w2);
    assert s[|w1|] == t[0];
    SkipSpacesExact(s, 0, |w1|);
    assert |w1| + |t| < |s| ==> s[|w1| + |t|] == w2[0];
    SkipNumericExact(s, |w1|, |w1| + |t|);
    SkipSpacesExact(s, |w1| + |t|, |s|);
  }

  lemma SingleTokenComplete(s: string, t: string)
    requires SingleShaped(s, t)
    ensures SingleToken(s) == Some(t)
  {
    var w1, w2 :| Blank(w1) && Blank(w2) && s == SingleText(w1, t, w2);
    SingleTextScans(w1, t, w2);
  }

  /** `s` cut at the scan positions of a range. */
  lemma RangeCuts(s: string, i0: nat, j0: nat, h: nat, w3: string, b: string, w4: string)
    requires i0 <= j0 <= h < |s| && s[h] == '-' && s[h + 1..] == SingleText(w3, b, w4)
    ensures s == RangeText(s[..i0], s[i0..j0], s[j0..h], w3, b, w4)
  {
    Peel(s, h, h + 1);
    assert s[h..h + 1] == "-";
    Peel(s, j0, h);
    Peel(s, i0, j0);
  }

  /** What the scans of a range pass over before the hyphen: blanks, a token, blanks. */
  lemma RangeScanned(s: string)
    ensures var i0 := SkipSpaces(s, 0); var j0 := SkipNumeric(s, i0); var h := SkipSpaces(s, j0);
      Blank(s[..i0]) && (i0 < j0 ==> NumericToken(s[i0..j0])) && Blank(s[j0..h])
  {
    var i0 := SkipSpaces(s, 0);
    var j0 := SkipNumeric(s, i0);
    SingleScanned(s, 0);
    assert s[0..i0] == s[..i0];
    var h := SkipSpaces(s, j0);
    SkipSpacesRun(s, j0);
    assert forall m :: 0 <= m < h - j0 ==> s[j0..h][m] == s[j0 + m];
  }

  lemma LexRangeSound(s: string)
    requires LexDensity(s).RangeSyntax?
    ensures RangeShaped(s, LexDensity(s).lower, LexDensity(s).upper)
  {
    var i0 := SkipSpaces(s, 0);
    var j0 := SkipNumeric(s, i0);
    var h := SkipSpaces(s, j0);
    var tail := s[h + 1..];
    var a, b := LexDensity(s).lower, LexDensity(s).upper;
    assert a == s[i0..j0] && SingleToken(tail) == Some(b);
    SingleTokenSound(tail);
    var w3, w4 :| Blank(w3) && Blank(w4) && tail == SingleText(w3, b, w4);
    RangeScanned(s);
    RangeCuts(s, i0, j0, h, w3, b, w4);
  }

  /** The characters of a range text up to the hyphen, position by position, and the two slices that matter. */
  lemma RangeIndex(w1: string, a: string, w2: string, tail: string)
    ensures var s := w1 + (a + (w2 + ("-" + tail))); var p2 := |w1| + |a|; var p3 := p2 + |w2|;
      p3 < |s|
      && (forall k :: 0 <= k < |w1| ==> s[k] == w1[k])
      && (forall k :: |w1| <= k < p2 ==> s[k] == a[k - |w1|])
      && (forall k :: p2 <= k < p3 ==> s[k] == w2[k - p2])
      && s[p3] == '-' && s[|w1|..p2] == a && s[p3 + 1..] == tail
  {
    var s := w1 + (a + (w2 + ("-" + tail)));
    var p2 := |w1| + |a|;
    var p3 := p2 + |w2|;
    var lower, rest := s[|w1|..p2], s[p3 + 1..];
    assert forall k :: 0 <= k < |a| ==> lower[k] == s[|w1| + k];
    assert forall k :: 0 <= k < |tail| ==> rest[k] == s[p3 + 1 + k];
  }

  /** Where the scans stop on a range text. */
  lemma RangeTextScans(w1: string, a: string, w2: string, w3: string, b: string, w4: string)
    requires Blank(w1) && Blank(w2) && NumericToken(a)
    ensures var s := RangeText(w1, a, w2, w3, b, w4); var p2 := |w1| + |a|; var p3 := p2 + |w2|;
      SkipSpaces(s, 0) == |w1| && SkipNumeric(s, |w1|) == p2 && SkipSpaces(s, p2) == p3
      && p3 < |s| && s[p3] == '-' && s[|w1|..p2] == a && s[p3 + 1..] == SingleText(w3, b, w4)
  {
    var s := RangeText(w1, a, w2, w3, b, w4);
    var p2 := |w1| + |a|;
    var p3 := p2 + |w2|;
    RangeIndex(w1, a, w2, SingleText(w3, b, w4));
    assert s[|w1|] == a[0];
    SkipSpacesExact(s, 0, |w1|);
    assert s[p2] == if w2 == [] then '-' else w2[0];
    SkipNumericExact(s, |w1|, p2);
    SkipSpacesExact(s, p2, p3);
  }

  lemma LexRangeComplete(s: string, a: string, b: string)
    requires RangeShaped(s, a, b)
    ensures LexDensity(s) == RangeSyntax(a, b)
  {
    var w1, w2, w3, w4 :| Blank(w1) && Blank(w2) && Blank(w3) && Blank(w4) && s == RangeText(w1, a, w2, w3, b, w4);
    RangeTextLexes(w1, a, w2, w3, b, w4);
  }

  /** LexDensity on a range text. */
  lemma RangeTextLexes(w1: string, a: string, w2: string, w3: string, b: string, w4: string)
    requires Blank(w1) && Blank(w2) && Blank(w3) && Blank(w4) && NumericToken(a) && NumericToken(b)
    ensures LexDensity(RangeText(w1, a, w2, w3, b, w4)) == RangeSyntax(a, b)
  {
    RangeTextScans(w1, a, w2, w3, b, w4);
    SingleTextScans(w3, b, w4);
    LexRangeAt(RangeText(w1, a, w2, w3, b, w4), |w1|, |w1| + |a|, |w1| + |a| + |w2|, b);
  }

  lemma LexSingleSound(s: string)
    requires LexDensity(s).SingleSyntax?
    ensures SingleShaped(s, LexDensity(s).token)
  {
    var i0 := SkipSpaces(s, 0);
    var j0 := SkipNumeric(s, i0);
    SingleScanned(s, 0);
    assert s[0..i0] == s[..i0];
    SingleCuts(s, i0, j0);
  }

  lemma LexSingleComplete(s: string, t: string)
    requires SingleShaped(s, t)
    ensures LexDensity(s) == SingleSyntax(t)
  {
    var w1, w2 :| Blank(w1) && Blank(w2) && s == SingleText(w1, t, w2);
    SingleTextScans(w1, t, w2);
    LexSingleAt(s, |w1|, |w1| + |t|);
  }

  /** A range yields the conversion of its upper bound; the lower bound is never converted. */
  lemma DensityRangeTakesUpper(parseFloat: string -> Option<Float32>, s: string, a: string, b: string)
    requires RangeShaped(s, a, b)
    ensures parseFloat(b).Some? ==> ParseDensityValue(parseFloat, s) == Success(parseFloat(b).value)
    ensures parseFloat(b).None? ==> ParseDensityValue(parseFloat, s) == Failure(ConversionFailed(b))
  {
    LexRangeComplete(s, a, b);
  }

  /** A single value yields its conversion. */
  lemma DensitySingleValue(parseFloat: string -> Option<Float32>, s: string, t: string)
    requires SingleShaped(s, t)
    ensures parseFloat(t).Some? ==> ParseDensityValue(parseFloat, s) == Success(parseFloat(t).value)
    ensures parseFloat(t).None? ==> ParseDensityValue(parseFloat, s) == Failure(ConversionFailed(t))
  {
    LexSingleComplete(s, t);
  }

  /** Text of neither shape is an error whatever the float conversion does. */
  lemma DensityUnrecognised(parseFloat: string -> Option<Float32>, s: string)
    requires forall a, b :: !RangeShaped(s, a, b)
    requires forall t :: !SingleShaped(s, t)
    ensures ParseDensityValue(parseFloat, s) == Failure(CouldNotParse(s))
  {
    match LexDensity(s)
    case RangeSyntax(_, _) => LexRangeSound(s);
    case SingleSyntax(_) => LexSingleSound(s);
    case NoSyntax =>
  }

  /** "1.0-2.0" is read as its upper bound. */
  lemma DensityRangeExample(parseFloat: string -> Option<Float32>)
    ensures parseFloat("2.0").Some? ==> ParseDensityValue(parseFloat, "1.0-2.0") == Success(parseFloat("2.0").value)
  {
    assert "1.0-2.0" == RangeText("", "1.0", "", "", "2.0", "");
    DensityRangeTakesUpper(parseFloat, "1.0-2.0", "1.0", "2.0");
  }

  /** "1.5" is read as itself. */
  lemma DensitySingleExample(parseFloat: string -> Option<Float32>)
    ensures parseFloat("1.5").Some? ==> ParseDensityValue(parseFloat, "1.5") == Success(parseFloat("1.5").value)
  {
    assert "1.5" == SingleText("", "1.5", "");
    DensitySingleValue(parseFloat, "1.5", "1.5");
  }

  /** "abc" is rejected. */
  lemma DensityRejectExample(parseFloat: string -> Option<Float32>)
    ensures ParseDensityValue(parseFloat, "abc") == Failure(CouldNotParse("abc"))
  {
    assert SkipSpaces("abc", 0) == 0;
    assert SkipNumeric("abc", 0) == 0;
  }

  // ---- row parsers ----

  /**
   * A catalog row: at least five fields (more are ignored); an empty id is
   * the unassigned sentinel, otherwise it must be an integer; the density
   * column goes through ParseDensityValue.
   */
  function ParseDensityReferenceRecord(parseFloat: string -> Option<Float32>, row: seq<string>): (r: Result<DensityReferenceRecord, RowError>)
    ensures r.Success? <==>
      |row| >= 5 && (row[0] == "" || Atoi(row[0]).Some?) && ParseDensityValue(parseFloat, row[3]).Success?
    ensures |row| < 5 ==> r == Failure(FieldCount(|row|))
    ensures r.Success? ==>
      && (row[0] == "" ==> r.value.id == UnassignedId)
      && (row[0] != "" ==> Atoi(row[0]) == Some(r.value.id))
      && r.value.ingredient == row[1] && r.value.normalised == row[2] && r.value.source == row[4]
      && ParseDensityValue(parseFloat, row[3]) == Success(r.value.density)
  {
    if |row| < 5 then Failure(FieldCount(|row|))
    else
      var id: Result<GoInt, RowError> :=
        if row[0] == "" then Success(UnassignedId)
        else match Atoi(row[0])
          case Some(n) => Success(n)
          case None => Failure(InvalidId(row[0]));
      if id.Failure? then Failure(id.error)
      else
        match ParseDensityValue(parseFloat, row[3])
        case Failure(_) => Failure(InvalidDensity(row[3]))
        case Success(d) => Success(DensityReferenceRecord(id.value, row[1], row[2], d, row[4]))
  }

  /**
   * An unresolved-ingredient row: at least six fields; an integer
   * popularity; empty action, match_to and density are absent; the density,
   * when present, must convert; confidence is the seventh field if there is one.
   */
  function ParseMissingDensitiesRecord(parseFloat: string -> Option<Float32>, row: seq<string>): (r: Result<MissingDensitiesRecord, RowError>)
    ensures r.Success? <==>
      |row| >= 6 && Atoi(row[0]).Some? && (row[4] == "" || parseFloat(row[4]).Some?)
    ensures |row| < 6 ==> r == Failure(FieldCount(|row|))
    ensures r.Success? ==>
      && Atoi(row[0]) == Some(r.value.popularity)
      && r.value.ingredient == row[1] && r.value.example == row[5]
      && (r.value.action.None? <==> row[2] == "") && (r.value.action.Some? ==> r.value.action.value == row[2])
      && (r.value.matchTo.None? <==> row[3] == "") && (r.value.matchTo.Some? ==> r.value.matchTo.value == row[3])
      && (r.value.density.None? <==> row[4] == "") && (r.value.density.Some? ==> parseFloat(row[4]) == r.value.density)
      && r.value.confidence == (if |row| > 6 then row[6] else "")
  {
    if |row| < 6 then Failure(FieldCount(|row|))
    else
      match Atoi(row[0])
      case None => Failure(InvalidPopularity(row[0]))
      case Some(popularity) =>
        var density: Result<Option<Float32>, RowError> :=
          if row[4] == "" then Success(None)
          else match parseFloat(row[4])
            case Some(v) => Success(Some(v))
            case None => Failure(InvalidDensity(row[4]));
        if density.Failure? then Failure(density.error)
        else
          var action := if row[2] == "" then None else Some(row[2]);
          var matchTo := if row[3] == "" then None else Some(row[3]);
          var confidence := if |row| > 6 then row[6] else "";
          Success(MissingDensitiesRecord(popularity, row[1], action, matchTo, density.value, row[5], confidence))
  }

  /** Fields beyond the fifth never change how a catalog row is read. */
  lemma ReferenceExtraFieldsIgnored(parseFloat: string -> Option<Float32>, row: seq<string>, extra: seq<string>)
    requires |row| >= 5
    ensures ParseDensityReferenceRecord(parseFloat, row + extra) == ParseDensityReferenceRecord(parseFloat, row)
  {
    var row' := row + extra;
    assert row'[0] == row[0] && row'[1] == row[1] && row'[2] == row[2] && row'[3] == row[3] && row'[4] == row[4];
  }

  /** Fields beyond the seventh never change how an unresolved-ingredient row is read. */
  lemma MissingExtraFieldsIgnored(parseFloat: string -> Option<Float32>, row: seq<string>, extra: seq<string>)
    requires |row| >= 7
    ensures ParseMissingDensitiesRecord(parseFloat, row + extra) == ParseMissingDensitiesRecord(parseFloat, row)
  {
    var row' := row + extra;
    assert forall i :: 0 <= i < 7 ==> row'[i] == row[i];
  }

  /**
   * Writing a catalog record and reading it back gives the same record,
   * except that the density is whatever its rendered text converts to.
   */
  lemma DensityReferenceRoundTrip(parseFloat: string -> Option<Float32>, format: Float32 -> string, r: DensityReferenceRecord)
    requires ParseDensityValue(parseFloat, format(r.density)).Success?
    ensures ParseDensityReferenceRecord(parseFloat, DensityReferenceToCsv(r, format))
         == Success(r.(density := ParseDensityValue(parseFloat, format(r.density)).value))
  {
    var row := DensityReferenceToCsv(r, format);
    assert row[0] != "";
  }

  /**
   * Writing an unresolved-ingredient record and reading it back recovers
   * popularity, ingredient, action, match_to, example and confidence, and
   * whether a density was present, as long as no optional field holds the
   * empty string (which would read back as absent).
   */
  lemma MissingDensitiesRoundTrip(parseFloat: string -> Option<Float32>, format: Float32 -> string, r: MissingDensitiesRecord)
    requires r.action != Some("") && r.matchTo != Some("")
    requires r.density.Some? ==> format(r.density.value) != "" && parseFloat(format(r.density.value)).Some?
    ensures ParseMissingDensitiesRecord(parseFloat, MissingDensitiesToCsv(r, format)).Success?
    ensures ParseMissingDensitiesRecord(parseFloat, MissingDensitiesToCsv(r, format)).value.(density := r.density) == r
    ensures ParseMissingDensitiesRecord(parseFloat, MissingDensitiesToCsv(r, format)).value.density.None? <==> r.density.None?
  {
  }
}
