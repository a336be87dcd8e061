/** Field coverage mapping: matching the column names observed in raw records onto
    the canonical GETS fields (src/utils/fieldDetector.ts). */
module FieldDetector {
  import opened JsValues
  import opened Seqs
  import opened Schema

  datatype FieldMatch = FieldMatch(target: string, candidate: string, confidence: real)

  datatype CoverageResult = CoverageResult(matched: seq<string>, close: seq<FieldMatch>, missing: seq<string>)

  function CloseTargets(close: seq<FieldMatch>): (r: seq<string>)
    ensures |r| == |close|
    ensures forall i :: 0 <= i < |close| ==> r[i] == close[i].target
  {
    seq(|close|, i requires 0 <= i < |close| => close[i].target)
  }

  function CloseCandidates(close: seq<FieldMatch>): (r: seq<string>)
    ensures |r| == |close|
    ensures forall i :: 0 <= i < |close| ==> r[i] == close[i].candidate
  {
    seq(|close|, i requires 0 <= i < |close| => close[i].candidate)
  }

  // ---------------------------------------------------------------------------
  // Name normalisation

  /** The characters `/[_\s-]/g` removes. */
  predicate IsSeparator(c: char)
  {
    c == '_' || IsJsWhitespace(c) || c == '-'
  }

  predicate IsDot(c: char)
  {
    c == '.'
  }

  /** `s.replace(re, '')` for a global single-character class `re`. */
  function RemoveAll(s: string, drop: char -> bool): (r: string)
    ensures |r| <= |s|
    ensures forall i :: 0 <= i < |r| ==> !drop(r[i]) && r[i] in s
    ensures forall c :: c in r <==> c in s && !drop(c)
    decreases |s|
  {
    if s == [] then []
    else (if drop(s[0]) then [] else [s[0]]) + RemoveAll(s[1..], drop)
  }

  /** Removal works piece by piece, so the kept characters stay in their order. */
  lemma {:induction false} RemoveAllAppend(a: string, b: string, drop: char -> bool)
    ensures RemoveAll(a + b, drop) == RemoveAll(a, drop) + RemoveAll(b, drop)
    decreases |a|
  {
    if a == [] {
      assert a + b == b;
    } else {
      RemoveAllHead(a, b, drop);
      RemoveAllAppend(a[1..], b, drop);
      Associative(if drop(a[0]) then [] else [a[0]], RemoveAll(a[1..], drop), RemoveAll(b, drop));
    }
  }

  lemma RemoveAllHead(a: string, b: string, drop: char -> bool)
    requires a != []
    ensures RemoveAll(a + b, drop) == (if drop(a[0]) then [] else [a[0]]) + RemoveAll(a[1..] + b, drop)
  {
    assert (a + b)[0] == a[0];
    assert (a + b)[1..] == a[1..] + b;
  }

  lemma Associative(x: string, y: string, z: string)
    ensures x + (y + z) == (x + y) + z
  {
  }

  /** Exactly the dropped characters go: the result is as long as the input less the
      number of its positions holding a dropped character. */
  lemma {:induction false} RemoveAllLength(s: string, drop: char -> bool)
    ensures |RemoveAll(s, drop)| == |s| - |set i | 0 <= i < |s| && drop(s[i])|
    decreases |s|
  {
    if s != [] {
      var n := |s| - 1;
      var front := s[..n];
      assert s == front + [s[n]];
      RemoveAllLength(front, drop);
      RemoveAllAppend(front, [s[n]], drop);
      assert [s[n]][1..] == [];
      assert RemoveAll([s[n]], drop) == if drop(s[n]) then [] else [s[n]];
      DroppedPositionsSnoc(front, s[n], drop);
    }
  }

  lemma DroppedPositionsSnoc(front: string, c: char, drop: char -> bool)
    ensures var s := front + [c];
            |set i | 0 <= i < |s| && drop(s[i])| ==
              |set i | 0 <= i < |front| && drop(front[i])| + (if drop(c) then 1 else 0)
  {
    var s := front + [c];
    var before := set i | 0 <= i < |front| && drop(front[i]);
    var all := set i | 0 <= i < |s| && drop(s[i]);
    forall i | i in all
      ensures i in before || (i == |front| && drop(c))
    {
      if i < |front| {
        assert s[i] == front[i];
      }
    }
    forall i | i in before
      ensures i in all
    {
      assert s[i] == front[i];
    }
    if drop(c) {
      assert all == before + {|front|};
      assert |front| !in before;
    } else {
      assert all == before;
    }
  }

  /** Lower-case, then strip `_`, white space and `-`, then strip `.`. */
  function NormalizeFieldName(fieldName: string): (r: string)
    ensures forall i :: 0 <= i < |r| ==> !IsAsciiUpper(r[i]) && !IsSeparator(r[i]) && !IsDot(r[i])
    ensures forall c :: c in r <==> c in ToLower(fieldName) && !IsSeparator(c) && !IsDot(c)
  {
    var lowered := ToLower(fieldName);
    var noSeparators := RemoveAll(lowered, IsSeparator);
    assert forall i :: 0 <= i < |noSeparators| ==> !IsAsciiUpper(noSeparators[i]);
    RemoveAll(noSeparators, IsDot)
  }

  lemma {:induction false} RemoveAllNone(s: string, drop: char -> bool)
    requires forall i :: 0 <= i < |s| ==> !drop(s[i])
    ensures RemoveAll(s, drop) == s
    decreases |s|
  {
    if s != [] {
      RemoveAllNone(s[1..], drop);
    }
  }

  lemma ToLowerNone(s: string)
    requires forall i :: 0 <= i < |s| ==> !IsAsciiUpper(s[i])
    ensures ToLower(s) == s
  {
  }

  /** Normalising a normalised name changes nothing. */
  lemma NormalizeIdempotent(fieldName: string)
    ensures NormalizeFieldName(NormalizeFieldName(fieldName)) == NormalizeFieldName(fieldName)
  {
    var n := NormalizeFieldName(fieldName);
    ToLowerNone(n);
    RemoveAllNone(n, IsSeparator);
    RemoveAllNone(n, IsDot);
  }

  // ---------------------------------------------------------------------------
  // Levenshtein distance

  function Max(a: int, b: int): int
  {
    if a < b then b else a
  }

  function Min3(a: int, b: int, c: int): (r: int)
    ensures r <= a && r <= b && r <= c
    ensures r == a || r == b || r == c
  {
    if a <= b && a <= c then a else if b <= c then b else c
  }

  /** The value `editDistance(a, b)` leaves in the bottom-right cell of its matrix:
      the cell for prefixes of `a` and `b` follows the same recurrence as the code. */
  function Lev(a: string, b: string): (d: nat)
    ensures d <= Max(|a|, |b|)
    ensures |a| - |b| <= d && |b| - |a| <= d
    decreases |a| + |b|
  {
    if |a| == 0 then |b|
    else if |b| == 0 then |a|
    else
      var a', b' := a[..|a| - 1], b[..|b| - 1];
      if a[|a| - 1] == b[|b| - 1] then Lev(a', b')
      else Min3(Lev(a', b') + 1, Lev(a', b) + 1, Lev(a, b') + 1)
  }

  /** The distance is zero exactly between equal strings. */
  lemma {:induction false} LevZeroIff(a: string, b: string)
    ensures Lev(a, b) == 0 <==> a == b
    decreases |a| + |b|
  {
    if |a| > 0 && |b| > 0 {
      var a', b' := a[..|a| - 1], b[..|b| - 1];
      LevZeroIff(a', b');
      if a == b {
        assert a' == b';
      }
      if a[|a| - 1] == b[|b| - 1] && a' == b' {
        assert a == a' + [a[|a| - 1]] && b == b' + [b[|b| - 1]];
      }
    }
  }

  lemma LevOfEmpty(a: string, b: string)
    requires a == [] || b == []
    ensures Lev(a, b) == |a| + |b|
  {
  }

  lemma LevStep(a: string, b: string, i: nat, j: nat)
    requires 1 <= i <= |a| && 1 <= j <= |b|
    ensures Lev(a[..i], b[..j]) ==
      if a[i - 1] == b[j - 1] then Lev(a[..i - 1], b[..j - 1])
      else Min3(Lev(a[..i - 1], b[..j - 1]) + 1, Lev(a[..i - 1], b[..j]) + 1, Lev(a[..i], b[..j - 1]) + 1)
  {
    assert a[..i][..i - 1] == a[..i - 1];
    assert b[..j][..j - 1] == b[..j - 1];
  }

  /** The distance between the first `c` characters of `a` and the first `r` of `b`:
      what cell [r, c] of the matrix must hold. */
  function Cell(a: string, b: string, r: nat, c: nat): nat
    requires c <= |a| && r <= |b|
  {
    Lev(a[..c], b[..r])
  }

  /** The recurrence the matrix follows, cell by cell. */
  lemma CellStep(a: string, b: string, r: nat, c: nat)
    requires 1 <= c <= |a| && 1 <= r <= |b|
    ensures Cell(a, b, r, c) ==
      if a[c - 1] == b[r - 1] then Cell(a, b, r - 1, c - 1)
      else Min3(Cell(a, b, r - 1, c - 1) + 1, Cell(a, b, r, c - 1) + 1, Cell(a, b, r - 1, c) + 1)
  {
    LevStep(a, b, c, r);
  }

  /** Fills row `j` (j >= 1) of the matrix from the row above it. */
  method FillRow(matrix: array2<int>, str1: string, str2: string, j: nat)
    requires matrix.Length0 == |str2| + 1 && matrix.Length1 == |str1| + 1
    requires 1 <= j <= |str2|
    requires forall r, c :: 0 <= r < j && 0 <= c <= |str1| ==> matrix[r, c] == Cell(str1, str2, r, c)
    requires matrix[j, 0] == j
    modifies matrix
    ensures forall c :: 0 <= c <= |str1| ==> matrix[j, c] == Cell(str1, str2, j, c)
    ensures forall r, c :: 0 <= r < matrix.Length0 && 0 <= c < matrix.Length1 && r != j ==> matrix[r, c] == old(matrix[r, c])
  {
    LevOfEmpty(str1[..0], str2[..j]);
    for i := 1 to |str1| + 1
      invariant forall c :: 0 <= c < i ==> matrix[j, c] == Cell(str1, str2, j, c)
      invariant forall r, c :: 0 <= r < matrix.Length0 && 0 <= c < matrix.Length1 && r != j ==> matrix[r, c] == old(matrix[r, c])
    {
      ghost var expected := Cell(str1, str2, j, i);
      CellStep(str1, str2, j, i);
      assert matrix[j - 1, i - 1] == Cell(str1, str2, j - 1, i - 1);
      assert matrix[j - 1, i] == Cell(str1, str2, j - 1, i);
      assert matrix[j, i - 1] == Cell(str1, str2, j, i - 1);
      if str1[i - 1] == str2[j - 1] {
        matrix[j, i] := matrix[j - 1, i - 1];
      } else {
        matrix[j, i] := Min3(matrix[j - 1, i - 1] + 1, matrix[j, i - 1] + 1, matrix[j - 1, i] + 1);
      }
      assert matrix[j, i] == expected;
    }
  }

  /** `editDistance`: fills a (|str2|+1) x (|str1|+1) matrix row by row; cell [j, i]
      holds the distance between the first i characters of str1 and the first j of str2. */
  method EditDistance(str1: string, str2: string) returns (distance: nat)
    ensures distance == Lev(str1, str2)
  {
    var matrix := new int[|str2| + 1, |str1| + 1];
    for i := 0 to |str1| + 1
      invariant forall c :: 0 <= c < i ==> matrix[0, c] == c
    {
      matrix[0, i] := i;
    }
    for j := 0 to |str2| + 1
      invariant forall c :: 0 <= c <= |str1| ==> matrix[0, c] == c
      invariant forall r :: 0 <= r < j ==> matrix[r, 0] == r
    {
      matrix[j, 0] := j;
    }
    forall c | 0 <= c <= |str1|
      ensures Cell(str1, str2, 0, c) == c
    {
      LevOfEmpty(str1[..c], str2[..0]);
    }
    for j := 1 to |str2| + 1
      invariant forall r, c :: 0 <= r < j && 0 <= c <= |str1| ==> matrix[r, c] == Cell(str1, str2, r, c)
      invariant forall r :: j <= r <= |str2| ==> matrix[r, 0] == r
    {
      FillRow(matrix, str1, str2, j);
    }
    assert str1[..|str1|] == str1 && str2[..|str2|] == str2;
    distance := matrix[|str2|, |str1|];
  }

  // ---------------------------------------------------------------------------
  // Similarity

  /** `s.includes(p)` */
  predicate Includes(s: string, p: string)
    decreases |s|
  {
    p <= s || (|s| > 0 && Includes(s[1..], p))
  }

  /** The last tier: `1 - distance / maxLength`, floored at 0. */
  function EditSimilarity(g: string, c: string): (r: real)
    requires g != c
    ensures 0.0 <= r < 1.0
  {
    var maxLength := Max(|g|, |c|);
    if maxLength == 0 then 0.0
    else
      LevZeroIff(g, c);
      var distance := Lev(g, c);
      PositiveRatio(distance, maxLength);
      MaxReal(0.0, 1.0 - distance as real / maxLength as real)
  }

  lemma PositiveRatio(a: nat, b: nat)
    requires a > 0 && b > 0
    ensures a as real / b as real > 0.0
  {
  }

  /** `calculateSimilarity`: tiered score of two names after normalisation. */
  function Similarity(getsField: string, candidateField: string): (r: real)
    ensures 0.0 <= r <= 1.0
    ensures r == 1.0 <==> NormalizeFieldName(getsField) == NormalizeFieldName(candidateField)
  {
    var g := NormalizeFieldName(getsField);
    var c := NormalizeFieldName(candidateField);
    if g == c then 1.0
    else if Includes(g, c) || Includes(c, g) then 0.9
    else if g <= c || c <= g then 0.85
    else EditSimilarity(g, c)
  }

  /** The 0.85 prefix tier never decides the score: a prefix is already contained. */
  lemma PrefixTierUnreachable(getsField: string, candidateField: string)
    ensures var g, c := NormalizeFieldName(getsField), NormalizeFieldName(candidateField);
            (g <= c || c <= g) ==> Similarity(getsField, candidateField) >= 0.9
  {
  }

  // ---------------------------------------------------------------------------
  // Types

  /** `inferDataType` of a sample value (None is `undefined`). */
  function InferDataType(rt: JsRuntime, value: Option<Scalar>): (r: FieldType)
    ensures r == TBoolean <==> value.Some? && value.value.Bool?
    ensures r == TDate ==> value.Some? && value.value.Str?
    ensures IsNullish(value) ==> r == TString
    ensures value.Some? && value.value.Num? ==> r == TNumber
    ensures value.Some? && value.value.Str? ==>
              (r == TNumber <==> rt.number(value.value.s).Some? && rt.parseFloat(value.value.s).Some?)
    ensures value.Some? && value.value.Str? ==>
              (r == TDate <==> !(rt.number(value.value.s).Some? && rt.parseFloat(value.value.s).Some?) &&
                               (IsIsoDateShape(value.value.s) || rt.dateParses(value.value.s)))
  {
    match value
    case Some(Bool(_)) => TBoolean
    case Some(Num(_)) => TNumber
    case Some(Str(s)) =>
      if rt.number(s).Some? && rt.parseFloat(s).Some? then TNumber
      else if IsIsoDateShape(s) || rt.dateParses(s) then TDate
      else TString
    case _ => TString
  }

  /** `isTypeCompatible`: an exact type agrees; a plain string is also accepted where
      a number or a date is expected. */
  function IsTypeCompatible(getsType: FieldType, inferredType: FieldType): (r: bool)
    ensures getsType == inferredType ==> r
    ensures inferredType != TString ==> (r <==> getsType == inferredType)
    ensures inferredType == TString ==> (r <==> getsType != TBoolean)
  {
    if getsType == inferredType then true
    else if getsType == TNumber && inferredType == TString then true
    else if getsType == TDate && inferredType == TString then true
    else
      assert inferredType == TString ==> getsType.TBoolean?;
      false
  }

  /** The adjusted confidence of one candidate for one field: similarity, times 0.7
      when the first record's sample type is incompatible and similarity exceeds 0.5. */
  function Confidence(rt: JsRuntime, spec: FieldSpec, candidate: string, sample: Row): (r: real)
    ensures 0.0 <= r <= 1.0
  {
    var similarity := Similarity(spec.path, candidate);
    var typeCompatible := IsTypeCompatible(spec.fieldType, InferDataType(rt, Get(sample, candidate)));
    if !typeCompatible && similarity > 0.5 then similarity * 0.7 else similarity
  }

  /** A compatible sample leaves the name similarity as it is; an incompatible one caps
      the confidence at 0.7, below the 0.8 needed for a match. */
  lemma ConfidenceFacts(rt: JsRuntime, spec: FieldSpec, candidate: string, sample: Row)
    ensures var compatible := IsTypeCompatible(spec.fieldType, InferDataType(rt, Get(sample, candidate)));
      (compatible ==> Confidence(rt, spec, candidate, sample) == Similarity(spec.path, candidate)) &&
      (!compatible ==> Confidence(rt, spec, candidate, sample) <= 0.7)
  {
  }

  // ---------------------------------------------------------------------------
  // The candidate pool

  /** Adds each key of one record to the pool unless it is already there (a JS Set). */
  function AddKeys(pool: seq<string>, keys: seq<string>): seq<string>
    decreases |keys|
  {
    if keys == [] then pool
    else
      var p := AddKeys(pool, keys[..|keys| - 1]);
      if keys[|keys| - 1] in p then p else p + [keys[|keys| - 1]]
  }

  /** Every key of every record, in first-seen order. */
  function CandidatePool(records: seq<Row>): seq<string>
    decreases |records|
  {
    if records == [] then []
    else AddKeys(CandidatePool(records[..|records| - 1]), records[|records| - 1].keys)
  }

  lemma {:induction false} AddKeysFacts(pool: seq<string>, keys: seq<string>)
    requires Distinct(pool)
    ensures Distinct(AddKeys(pool, keys))
    ensures forall k :: k in AddKeys(pool, keys) <==> k in pool || k in keys
    decreases |keys|
  {
    if keys != [] {
      AddKeysFacts(pool, keys[..|keys| - 1]);
      assert keys == keys[..|keys| - 1] + [keys[|keys| - 1]];
    }
  }

  /** The pool holds each observed key exactly once. */
  lemma {:induction false} CandidatePoolFacts(records: seq<Row>)
    ensures Distinct(CandidatePool(records))
    ensures forall k :: k in CandidatePool(records) <==>
              exists r :: 0 <= r < |records| && k in records[r].keys
    decreases |records|
  {
    if records != [] {
      var init := records[..|records| - 1];
      CandidatePoolFacts(init);
      AddKeysFacts(CandidatePool(init), records[|records| - 1].keys);
      forall k | k in CandidatePool(records)
        ensures exists r :: 0 <= r < |records| && k in records[r].keys
      {
        if k !in records[|records| - 1].keys {
          var r :| 0 <= r < |init| && k in init[r].keys;
          assert records[r] == init[r];
        }
      }
      forall k | exists r :: 0 <= r < |records| && k in records[r].keys
        ensures k in CandidatePool(records)
      {
        var r :| 0 <= r < |records| && k in records[r].keys;
        if r < |init| {
          assert init[r] == records[r];
        }
      }
    }
  }

  /** The loop that fills `candidateFields`. */
  method BuildCandidatePool(records: seq<Row>) returns (pool: seq<string>)
    ensures pool == CandidatePool(records)
  {
    pool := [];
    for r := 0 to |records|
      invariant pool == CandidatePool(records[..r])
    {
      assert records[..r + 1][..r] == records[..r];
      var keys := records[r].keys;
      ghost var before := pool;
      for k := 0 to |keys|
        invariant pool == AddKeys(before, keys[..k])
      {
        assert keys[..k + 1][..k] == keys[..k];
        if keys[k] !in pool {
          pool := pool + [keys[k]];
        }
      }
      assert keys[..|keys|] == keys;
    }
    assert records[..|records|] == records;
  }

  // ---------------------------------------------------------------------------
  // The matching pass, as functions

  /** What the search over the candidates decides for one field. */
  datatype Outcome = Matched(candidate: string) | Close(candidate: string, confidence: real) | NoMatch

  /** How confident the pass is that a candidate key holds a field. */
  type Score = (FieldSpec, string) -> real

  /** The score the pass uses: `Confidence`, with the first record as the sample. */
  function Matcher(rt: JsRuntime, sample: Row): Score
  {
    (spec: FieldSpec, candidate: string) => Confidence(rt, spec, candidate, sample)
  }

  /** The score of every candidate of the pool for one field. */
  function Scores(score: Score, spec: FieldSpec, pool: seq<string>): (r: seq<real>)
    ensures |r| == |pool|
    ensures forall k :: 0 <= k < |pool| ==> r[k] == score(spec, pool[k])
  {
    seq(|pool|, k requires 0 <= k < |pool| => score(spec, pool[k]))
  }

  /** The candidate loop for one field from position `i`, given each candidate's
      confidence in `scores` and the best close candidate so far in `best`: the first
      unused candidate reaching 0.8 wins at once; otherwise the first unused candidate
      of highest confidence above 0.5 is kept. */
  function Scan(pool: seq<string>, scores: seq<real>, used: set<string>, i: nat,
                best: Option<(string, real)>): Outcome
    requires i <= |pool| == |scores|
    decreases |pool| - i
  {
    if i == |pool| then
      (if best.Some? then Close(best.value.0, best.value.1) else NoMatch)
    else if pool[i] in used then Scan(pool, scores, used, i + 1, best)
    else
      var conf := scores[i];
      if conf >= 0.8 then Matched(pool[i])
      else if conf > 0.5 && (best.None? || conf > best.value.1) then
        Scan(pool, scores, used, i + 1, Some((pool[i], conf)))
      else Scan(pool, scores, used, i + 1, best)
  }

  /** The state the outer loop carries from field to field. */
  datatype MapState = MapState(matched: seq<string>, close: seq<FieldMatch>, used: set<string>)

  /** One iteration of the loop over the schema fields. */
  function Step(pool: seq<string>, score: Score, st: MapState, spec: FieldSpec): MapState
  {
    match Scan(pool, Scores(score, spec, pool), st.used, 0, None)
    case Matched(c) => MapState(st.matched + [spec.path], st.close, st.used + {c})
    case Close(c, conf) =>
      if spec.path !in st.matched then
        MapState(st.matched, st.close + [FieldMatch(spec.path, c, Round2(conf))], st.used + {c})
      else st
    case NoMatch => st
  }

  function Run(pool: seq<string>, score: Score, fields: seq<FieldSpec>): MapState
    decreases |fields|
  {
    if fields == [] then MapState([], [], {})
    else Step(pool, score, Run(pool, score, fields[..|fields| - 1]), fields[|fields| - 1])
  }

  /** The fields with neither a match nor a close candidate. */
  function MissingSet(paths: seq<string>, matched: seq<string>, close: seq<FieldMatch>): set<string>
  {
    set p | p in paths && p !in matched && p !in CloseTargets(close)
  }

  /** `detectFieldMapping` as a function of the records and the schema. */
  function Coverage(rt: JsRuntime, schema: Gets, records: seq<Row>): CoverageResult
  {
    if records == [] then CoverageResult([], [], Paths(schema.fields))
    else
      var st := Run(CandidatePool(records), Matcher(rt, records[0]), schema.fields);
      var paths := Paths(schema.fields);
      CoverageResult(st.matched, st.close, Filter(paths, MissingSet(paths, st.matched, st.close)))
  }

  // ---------------------------------------------------------------------------
  // The matching pass, as the source runs it

  /** The candidate loop of `detectFieldMapping` for one field: stops at the first
      unused candidate whose confidence reaches 0.8, and otherwise keeps the best one
      above 0.5. */
  method ScanCandidates(rt: JsRuntime, spec: FieldSpec, candidateFields: seq<string>, sample: Row,
                        usedCandidates: set<string>)
    returns (hit: Option<string>, bestMatch: Option<(string, real)>)
    ensures var outcome := Scan(candidateFields, Scores(Matcher(rt, sample), spec, candidateFields), usedCandidates, 0, None);
      (hit.Some? ==> bestMatch.None? && outcome == Matched(hit.value)) &&
      (hit.None? && bestMatch.Some? ==> outcome == Close(bestMatch.value.0, bestMatch.value.1)) &&
      (hit.None? && bestMatch.None? ==> outcome == NoMatch)
  {
    ghost var scores := Scores(Matcher(rt, sample), spec, candidateFields);
    ghost var outcome := Scan(candidateFields, scores, usedCandidates, 0, None);
    hit := None;
    bestMatch := None;
    var k := 0;
    while k < |candidateFields|
      invariant 0 <= k <= |candidateFields|
      invariant outcome == Scan(candidateFields, scores, usedCandidates, k, bestMatch)
    {
      var candidate := candidateFields[k];
      if candidate !in usedCandidates {
        var adjustedConfidence := Confidence(rt, spec, candidate, sample);
        if adjustedConfidence >= 0.8 {
          hit := Some(candidate);
          bestMatch := None;
          break;
        } else if adjustedConfidence > 0.5 && (bestMatch.None? || adjustedConfidence > bestMatch.value.1) {
          bestMatch := Some((candidate, adjustedConfidence));
        }
      }
      k := k + 1;
    }
  }

  /** The closing loop of `detectFieldMapping`: every field neither matched nor close,
      in schema order. */
  method CollectMissing(getsFields: seq<FieldSpec>, matched: seq<string>, close: seq<FieldMatch>)
    returns (missing: seq<string>)
    ensures missing == Filter(Paths(getsFields), MissingSet(Paths(getsFields), matched, close))
  {
    ghost var paths := Paths(getsFields);
    missing := [];
    for f := 0 to |getsFields|
      invariant missing == Filter(paths[..f], MissingSet(paths, matched, close))
    {
      assert paths[..f + 1][..f] == paths[..f];
      var getsField := getsFields[f].path;
      if getsField !in matched && getsField !in CloseTargets(close) {
        missing := missing + [getsField];
      }
    }
    assert paths[..|paths|] == paths;
  }

  /** What one iteration of the field loop does, given what the candidate search
      found. */
  lemma StepResult(pool: seq<string>, score: Score, st: MapState, spec: FieldSpec,
                   hit: Option<string>, bestMatch: Option<(string, real)>)
    requires var outcome := Scan(pool, Scores(score, spec, pool), st.used, 0, None);
      (hit.Some? ==> bestMatch.None? && outcome == Matched(hit.value)) &&
      (hit.None? && bestMatch.Some? ==> outcome == Close(bestMatch.value.0, bestMatch.value.1)) &&
      (hit.None? && bestMatch.None? ==> outcome == NoMatch)
    ensures hit.Some? ==>
      Step(pool, score, st, spec) == MapState(st.matched + [spec.path], st.close, st.used + {hit.value})
    ensures hit.None? && bestMatch.Some? && spec.path !in st.matched ==>
      Step(pool, score, st, spec) ==
        MapState(st.matched, st.close + [FieldMatch(spec.path, bestMatch.value.0, Round2(bestMatch.value.1))],
                 st.used + {bestMatch.value.0})
    ensures hit.None? && (bestMatch.None? || spec.path in st.matched) ==> Step(pool, score, st, spec) == st
  {
  }

  /** The loop of `detectFieldMapping` over the schema fields, with the pool and the
      sample record fixed. */
  method MatchFields(rt: JsRuntime, getsFields: seq<FieldSpec>, candidateFields: seq<string>, sample: Row)
    returns (matched: seq<string>, close: seq<FieldMatch>, usedCandidates: set<string>)
    ensures MapState(matched, close, usedCandidates) == Run(candidateFields, Matcher(rt, sample), getsFields)
  {
    matched := [];
    close := [];
    usedCandidates := {};
    for f := 0 to |getsFields|
      invariant MapState(matched, close, usedCandidates) == Run(candidateFields, Matcher(rt, sample), getsFields[..f])
    {
      assert getsFields[..f + 1][..f] == getsFields[..f];
      var spec := getsFields[f];
      var hit, bestMatch := ScanCandidates(rt, spec, candidateFields, sample, usedCandidates);
      StepResult(candidateFields, Matcher(rt, sample), MapState(matched, close, usedCandidates), spec, hit, bestMatch);
      if hit.Some? {
        matched := matched + [spec.path];
        usedCandidates := usedCandidates + {hit.value};
      }
      if bestMatch.Some? && spec.path !in matched {
        close := close + [FieldMatch(spec.path, bestMatch.value.0, Round2(bestMatch.value.1))];
        usedCandidates := usedCandidates + {bestMatch.value.0};
      }
    }
    assert getsFields[..|getsFields|] == getsFields;
  }

  /** `detectFieldMapping`: builds the pool, walks the schema fields in order, searching
      the unused candidates for each, then collects the missing fields. */
  method DetectFieldMapping(rt: JsRuntime, schema: Gets, parsedData: seq<Row>) returns (coverage: CoverageResult)
    ensures coverage == Coverage(rt, schema, parsedData)
    ensures parsedData == [] ==> coverage == CoverageResult([], [], Paths(schema.fields))
  {
    if |parsedData| == 0 {
      return CoverageResult([], [], Paths(schema.fields));
    }
    var candidateFields := BuildCandidatePool(parsedData);
    var matched, close, _ := MatchFields(rt, schema.fields, candidateFields, parsedData[0]);
    var missing := CollectMissing(schema.fields, matched, close);
    coverage := CoverageResult(matched, close, missing);
  }

  // ---------------------------------------------------------------------------
  // Properties of the matching pass

  /** Index of the first unused candidate at or after `i` whose confidence reaches 0.8,
      or |pool| when there is none. */
  function FirstStrong(pool: seq<string>, scores: seq<real>, used: set<string>, i: nat): (r: nat)
    requires i <= |pool| == |scores|
    ensures i <= r <= |pool|
    ensures r < |pool| ==> pool[r] !in used && scores[r] >= 0.8
    ensures forall k :: i <= k < r && pool[k] !in used ==> scores[k] < 0.8
    decreases |pool| - i
  {
    if i == |pool| then i
    else if pool[i] !in used && scores[i] >= 0.8 then i
    else FirstStrong(pool, scores, used, i + 1)
  }

  /** No unused candidate from `i` on has a confidence above `conf`. */
  ghost predicate Dominates(pool: seq<string>, scores: seq<real>, used: set<string>, i: nat, conf: real)
    requires |pool| == |scores|
  {
    forall k :: i <= k < |pool| && pool[k] !in used ==> scores[k] <= conf
  }

  /** `c` is an unused candidate whose confidence is `conf`. */
  ghost predicate Scored(pool: seq<string>, scores: seq<real>, used: set<string>, c: string, conf: real)
    requires |pool| == |scores|
  {
    c !in used && exists j :: 0 <= j < |pool| && pool[j] == c && scores[j] == conf
  }

  /** The search stops with Matched exactly when some unused candidate from `i` on
      reaches 0.8, and then with the first such candidate. */
  lemma {:induction false} ScanStrong(pool: seq<string>, scores: seq<real>, used: set<string>, i: nat,
                                      best: Option<(string, real)>)
    requires i <= |pool| == |scores|
    ensures var o := Scan(pool, scores, used, i, best);
            var s := FirstStrong(pool, scores, used, i);
      (o.Matched? <==> s < |pool|) && (o.Matched? ==> o.candidate == pool[s])
    decreases |pool| - i
  {
    if i < |pool| && (pool[i] in used || scores[i] < 0.8) {
      if pool[i] !in used && scores[i] > 0.5 && (best.None? || scores[i] > best.value.1) {
        ScanStrong(pool, scores, used, i + 1, Some((pool[i], scores[i])));
      } else {
        ScanStrong(pool, scores, used, i + 1, best);
      }
    }
  }

  /** Otherwise the search keeps the best candidate above 0.5: with Close(c, conf), c is
      unused, `conf` is its confidence, in (0.5, 0.8), no lower than `best`'s and no
      lower than that of any unused candidate from `i` on; with NoMatch there was no
      `best` and no unused candidate from `i` on is above 0.5. */
  lemma {:induction false} ScanBest(pool: seq<string>, scores: seq<real>, used: set<string>, i: nat,
                                    best: Option<(string, real)>)
    requires i <= |pool| == |scores|
    requires best.Some? ==> Scored(pool, scores, used, best.value.0, best.value.1) &&
                            0.5 < best.value.1 < 0.8
    ensures var o := Scan(pool, scores, used, i, best);
      (o.Close? ==>
         Scored(pool, scores, used, o.candidate, o.confidence) && 0.5 < o.confidence < 0.8 &&
         (best.Some? ==> best.value.1 <= o.confidence) &&
         Dominates(pool, scores, used, i, o.confidence)) &&
      (o.NoMatch? ==> best.None? && Dominates(pool, scores, used, i, 0.5))
    decreases |pool| - i
  {
    if i < |pool| {
      var c := pool[i];
      if c in used {
        ScanBest(pool, scores, used, i + 1, best);
      } else if scores[i] < 0.8 {
        if scores[i] > 0.5 && (best.None? || scores[i] > best.value.1) {
          assert Scored(pool, scores, used, c, scores[i]);
          ScanBest(pool, scores, used, i + 1, Some((c, scores[i])));
        } else {
          ScanBest(pool, scores, used, i + 1, best);
        }
      }
    }
  }

  /** What the search for one field decides, in terms of the candidates' confidences:
      - Matched(c): c is the first unused candidate whose confidence reaches 0.8;
      - Close(c, conf): c is unused, `conf` is its confidence, in (0.5, 0.8), and no
        unused candidate has a higher one (so none reaches 0.8);
      - NoMatch: no unused candidate has a confidence above 0.5. */
  lemma SearchOutcome(rt: JsRuntime, spec: FieldSpec, pool: seq<string>, sample: Row, used: set<string>)
    ensures var o := Scan(pool, Scores(Matcher(rt, sample), spec, pool), used, 0, None);
      (o.Matched? ==>
         exists m :: 0 <= m < |pool| && pool[m] == o.candidate && o.candidate !in used &&
           Confidence(rt, spec, o.candidate, sample) >= 0.8 &&
           forall k :: 0 <= k < m && pool[k] !in used ==> Confidence(rt, spec, pool[k], sample) < 0.8) &&
      (o.Close? ==>
         o.candidate in pool && o.candidate !in used &&
         o.confidence == Confidence(rt, spec, o.candidate, sample) && 0.5 < o.confidence < 0.8 &&
         forall k :: 0 <= k < |pool| && pool[k] !in used ==> Confidence(rt, spec, pool[k], sample) <= o.confidence) &&
      (o.NoMatch? ==>
         forall k :: 0 <= k < |pool| && pool[k] !in used ==> Confidence(rt, spec, pool[k], sample) <= 0.5)
  {
    var scores := Scores(Matcher(rt, sample), spec, pool);
    ScanStrong(pool, scores, used, 0, None);
    ScanBest(pool, scores, used, 0, None);
    match Scan(pool, scores, used, 0, None)
    case Matched(c) =>
      var m := FirstStrong(pool, scores, used, 0);
      assert pool[m] == c && scores[m] == Confidence(rt, spec, c, sample);
    case Close(c, conf) =>
      var j :| 0 <= j < |pool| && pool[j] == c && scores[j] == conf;
      assert scores[j] == Confidence(rt, spec, c, sample);
      assert Dominates(pool, scores, used, 0, conf);
    case NoMatch =>
      assert Dominates(pool, scores, used, 0, 0.5);
  }

  /** The confidence a close candidate is reported with, after 2-dp rounding. */
  lemma CloseConfidenceRounded(conf: real)
    requires 0.5 < conf < 0.8
    ensures 0.5 <= Round2(conf) <= 0.8
  {
    RoundMonotone(50.0, conf * 100.0);
    RoundMonotone(conf * 100.0, 80.0);
    RoundOfInt(50);
    RoundOfInt(80);
  }

  /** An unused candidate of the pool reaching 0.8 makes the field `matched` (by that
      candidate, or by an earlier one that also reaches 0.8). */
  lemma StrongCandidateMatches(pool: seq<string>, score: Score, st: MapState, spec: FieldSpec, c: string)
    requires c in pool && c !in st.used && score(spec, c) >= 0.8
    ensures Step(pool, score, st, spec).matched == st.matched + [spec.path]
  {
    var scores := Scores(score, spec, pool);
    ScanStrong(pool, scores, st.used, 0, None);
    var m :| 0 <= m < |pool| && pool[m] == c;
    assert FirstStrong(pool, scores, st.used, 0) <= m;
  }

  /** A field whose normalised name equals an unused candidate's, with a compatible
      first-record sample, is `matched`. */
  lemma CompatibleExactNameMatches(rt: JsRuntime, pool: seq<string>, sample: Row, st: MapState,
                                   spec: FieldSpec, c: string)
    requires c in pool && c !in st.used
    requires NormalizeFieldName(c) == NormalizeFieldName(spec.path)
    requires IsTypeCompatible(spec.fieldType, InferDataType(rt, Get(sample, c)))
    ensures Step(pool, Matcher(rt, sample), st, spec).matched == st.matched + [spec.path]
  {
    ConfidenceFacts(rt, spec, c, sample);
    StrongCandidateMatches(pool, Matcher(rt, sample), st, spec, c);
  }

  /** An equal normalised name with an incompatible sample type scores exactly 0.7, so
      that candidate never makes the field `matched`; when it is the only candidate,
      the field becomes a close match at 0.7. */
  lemma IncompatibleExactNameIsClose(rt: JsRuntime, pool: seq<string>, sample: Row, st: MapState,
                                     spec: FieldSpec, c: string)
    requires NormalizeFieldName(c) == NormalizeFieldName(spec.path)
    requires !IsTypeCompatible(spec.fieldType, InferDataType(rt, Get(sample, c)))
    ensures Confidence(rt, spec, c, sample) == 0.7
    ensures Scan(pool, Scores(Matcher(rt, sample), spec, pool), st.used, 0, None) != Matched(c)
    ensures pool == [c] && c !in st.used && spec.path !in st.matched ==>
              Step(pool, Matcher(rt, sample), st, spec) ==
              MapState(st.matched, st.close + [FieldMatch(spec.path, c, 0.7)], st.used + {c})
  {
    assert Similarity(spec.path, c) == 1.0;
    var scores := Scores(Matcher(rt, sample), spec, pool);
    ScanStrong(pool, scores, st.used, 0, None);
    if pool == [c] && c !in st.used && spec.path !in st.matched {
      assert pool[0] == c;
      RoundOfInt(70);
      assert Round2(0.7) == 0.7;
    }
  }

  /** Each used candidate comes from the pool and was consumed by exactly one
      matched or close field; close candidates are distinct and carry a rounded
      confidence in [0.5, 0.8]. */
  ghost predicate Consumes(pool: seq<string>, st: MapState)
  {
    |st.used| == |st.matched| + |st.close| &&
    (forall c :: c in st.used ==> c in pool) &&
    (forall i :: 0 <= i < |st.close| ==> st.close[i].candidate in st.used) &&
    Distinct(CloseCandidates(st.close)) &&
    (forall i :: 0 <= i < |st.close| ==> 0.5 <= st.close[i].confidence <= 0.8)
  }

  /** One step consumes at most one fresh candidate. */
  lemma StepConsumes(pool: seq<string>, score: Score, st0: MapState, spec: FieldSpec)
    requires Consumes(pool, st0)
    ensures Consumes(pool, Step(pool, score, st0, spec))
  {
    var scores := Scores(score, spec, pool);
    ScanStrong(pool, scores, st0.used, 0, None);
    ScanBest(pool, scores, st0.used, 0, None);
    match Scan(pool, scores, st0.used, 0, None)
    case Matched(c) =>
    case Close(c, conf) =>
      CloseConfidenceRounded(conf);
      if spec.path !in st0.matched {
        var st := Step(pool, score, st0, spec);
        assert st.close == st0.close + [FieldMatch(spec.path, c, Round2(conf))];
        assert CloseCandidates(st.close) == CloseCandidates(st0.close) + [c];
        assert c !in CloseCandidates(st0.close);
      }
    case NoMatch =>
  }

  /** Over the whole schema: no candidate is consumed twice. */
  lemma {:induction false} RunConsumes(pool: seq<string>, score: Score, fields: seq<FieldSpec>)
    ensures Consumes(pool, Run(pool, score, fields))
    decreases |fields|
  {
    if fields != [] {
      var n := |fields| - 1;
      RunConsumes(pool, score, fields[..n]);
      StepConsumes(pool, score, Run(pool, score, fields[..n]), fields[n]);
    }
  }

  predicate InSchemaOrder(xs: seq<string>, paths: seq<string>)
  {
    xs == Filter(paths, set x | x in xs)
  }

  /** The fields handled so far (`paths`) are split between `matched` and the close
      targets, disjointly and each in schema order. */
  ghost predicate Partitioned(st: MapState, paths: seq<string>)
  {
    (forall p :: p in st.matched ==> p in paths) &&
    (forall p :: p in CloseTargets(st.close) ==> p in paths) &&
    (forall p :: p in st.matched ==> p !in CloseTargets(st.close)) &&
    InSchemaOrder(st.matched, paths) &&
    InSchemaOrder(CloseTargets(st.close), paths)
  }

  /** One field more keeps the split, with that field appended to at most one side. */
  lemma StepPartition(pool: seq<string>, score: Score, st: MapState,
                      paths: seq<string>, spec: FieldSpec)
    requires Partitioned(st, paths) && spec.path !in paths
    ensures Partitioned(Step(pool, score, st, spec), paths + [spec.path])
  {
    var p := spec.path;
    var P := paths + [p];
    assert P[..|paths|] == paths;
    var st1 := Step(pool, score, st, spec);
    var T0 := CloseTargets(st.close);
    var M0 := set x | x in st.matched;
    var S0 := set x | x in T0;
    match Scan(pool, Scores(score, spec, pool), st.used, 0, None)
    case Matched(c) =>
      assert st1.matched == st.matched + [p] && st1.close == st.close;
      assert (set x | x in st1.matched) == M0 + {p};
      FilterAgrees(paths, M0 + {p}, M0);
    case Close(c, conf) =>
      assert st1.matched == st.matched;
      assert CloseTargets(st1.close) == T0 + [p];
      assert (set x | x in CloseTargets(st1.close)) == S0 + {p};
      FilterAgrees(paths, S0 + {p}, S0);
    case NoMatch =>
  }

  /** After the whole schema, `matched` and the close targets split its paths
      disjointly, each in schema order. */
  lemma {:induction false} RunPartition(pool: seq<string>, score: Score, fields: seq<FieldSpec>)
    requires Distinct(Paths(fields))
    ensures Partitioned(Run(pool, score, fields), Paths(fields))
    decreases |fields|
  {
    if fields != [] {
      var n := |fields| - 1;
      var P := Paths(fields);
      assert Paths(fields[..n]) == P[..n];
      assert P == P[..n] + [fields[n].path];
      DistinctInit(P);
      RunPartition(pool, score, fields[..n]);
      StepPartition(pool, score, Run(pool, score, fields[..n]), P[..n], fields[n]);
    }
  }

  lemma FilterNothing(s: seq<string>)
    ensures Filter(s, {}) == []
  {
  }

  /** Partition: every schema field is in exactly one of `matched`, the close targets
      and `missing`, and nothing else is in them. */
  lemma CoveragePartition(rt: JsRuntime, schema: Gets, records: seq<Row>)
    requires Distinct(Paths(schema.fields))
    ensures var cov := Coverage(rt, schema, records);
      (forall p :: p in Paths(schema.fields) <==>
                   p in cov.matched || p in CloseTargets(cov.close) || p in cov.missing) &&
      (forall p :: p in cov.matched ==> p !in CloseTargets(cov.close) && p !in cov.missing) &&
      (forall p :: p in CloseTargets(cov.close) ==> p !in cov.missing)
  {
    if records != [] {
      RunPartition(CandidatePool(records), Matcher(rt, records[0]), schema.fields);
    }
  }

  /** Each of the three lists is in schema order and has no repetition. */
  lemma CoverageSchemaOrder(rt: JsRuntime, schema: Gets, records: seq<Row>)
    requires Distinct(Paths(schema.fields))
    ensures var cov := Coverage(rt, schema, records); var paths := Paths(schema.fields);
      InSchemaOrder(cov.matched, paths) && InSchemaOrder(CloseTargets(cov.close), paths) &&
      InSchemaOrder(cov.missing, paths) &&
      Distinct(cov.matched) && Distinct(CloseTargets(cov.close)) && Distinct(cov.missing)
  {
    var cov := Coverage(rt, schema, records);
    var paths := Paths(schema.fields);
    if records == [] {
      FilterNothing(paths);
      assert (set x: string | x in []) == {};
      FilterAll(paths, (set x | x in paths));
    } else {
      var st := Run(CandidatePool(records), Matcher(rt, records[0]), schema.fields);
      RunPartition(CandidatePool(records), Matcher(rt, records[0]), schema.fields);
      var ms := MissingSet(paths, st.matched, st.close);
      FilterAgrees(paths, (set x | x in cov.missing), ms);
      FilterDistinct(paths, (set x | x in st.matched));
      FilterDistinct(paths, (set x | x in CloseTargets(st.close)));
      FilterDistinct(paths, ms);
    }
  }

  lemma SubsetCard(a: set<string>, b: set<string>)
    requires a <= b
    ensures |a| <= |b|
  {
    assert b == a + (b - a);
  }

  /** Candidate exclusivity: no key is consumed twice, so close candidates are distinct
      keys of the pool, and matched plus close fields never outnumber the pool. */
  lemma CoverageCandidatesExclusive(rt: JsRuntime, schema: Gets, records: seq<Row>)
    ensures var cov := Coverage(rt, schema, records);
      Distinct(CloseCandidates(cov.close)) &&
      |cov.matched| + |cov.close| <= |CandidatePool(records)| &&
      (forall i :: 0 <= i < |cov.close| ==>
         cov.close[i].candidate in CandidatePool(records) && 0.5 <= cov.close[i].confidence <= 0.8)
  {
    if records != [] {
      var pool := CandidatePool(records);
      var st := Run(pool, Matcher(rt, records[0]), schema.fields);
      RunConsumes(pool, Matcher(rt, records[0]), schema.fields);
      CandidatePoolFacts(records);
      DistinctCard(pool);
      SubsetCard(st.used, (set x | x in pool));
    }
  }

  /** Later fields only append to `matched`. */
  lemma {:induction false} RunMatchedGrows(pool: seq<string>, score: Score,
                                           fields: seq<FieldSpec>, i: nat)
    requires i <= |fields|
    ensures Run(pool, score, fields[..i]).matched <= Run(pool, score, fields).matched
    decreases |fields|
  {
    if i < |fields| {
      var n := |fields| - 1;
      assert fields[..n][..i] == fields[..i];
      RunMatchedGrows(pool, score, fields[..n], i);
    } else {
      assert fields[..i] == fields;
    }
  }

  /** A field for which an unused candidate reaches 0.8 stays `matched` to the end. */
  lemma RunStrongMatched(pool: seq<string>, score: Score, fields: seq<FieldSpec>, f: nat, c: string)
    requires f < |fields| && c in pool && c !in Run(pool, score, fields[..f]).used
    requires score(fields[f], c) >= 0.8
    ensures fields[f].path in Run(pool, score, fields).matched
  {
    assert fields[..f + 1][..f] == fields[..f];
    StrongCandidateMatches(pool, score, Run(pool, score, fields[..f]), fields[f], c);
    assert fields[f].path in Run(pool, score, fields[..f + 1]).matched;
    RunMatchedGrows(pool, score, fields, f + 1);
  }

  /** Exact-name match in the full result: if field `f`'s normalised path equals that of
      a key `c` of some record `r`, `c` was not consumed by the fields before `f`, and
      the first record's value under `c` has a compatible type, field `f` is `matched`.
      For the first field nothing is consumed yet. */
  lemma CoverageExactNameMatched(rt: JsRuntime, schema: Gets, records: seq<Row>, f: nat, c: string, r: nat)
    requires f < |schema.fields| && r < |records| && c in records[r].keys
    requires c !in Run(CandidatePool(records), Matcher(rt, records[0]), schema.fields[..f]).used
    requires NormalizeFieldName(c) == NormalizeFieldName(schema.fields[f].path)
    requires IsTypeCompatible(schema.fields[f].fieldType, InferDataType(rt, Get(records[0], c)))
    ensures schema.fields[f].path in Coverage(rt, schema, records).matched
  {
    CandidatePoolFacts(records);
    ConfidenceFacts(rt, schema.fields[f], c, records[0]);
    RunStrongMatched(CandidatePool(records), Matcher(rt, records[0]), schema.fields, f, c);
  }

  // ---------------------------------------------------------------------------
  // Value resolution

  /** `s.replace('.', '_')` */
  function ReplaceFirstDot(s: string): (r: string)
    ensures |r| == |s|
    ensures (forall i :: 0 <= i < |s| ==> s[i] != '.') ==> r == s
    decreases |s|
  {
    if s == [] then []
    else if s[0] == '.' then "_" + s[1..]
    else [s[0]] + ReplaceFirstDot(s[1..])
  }

  /** `s.replace('.', '_')`: only the first `.` becomes `_`; the rest are kept. */
  lemma {:induction false} ReplaceFirstDotAt(s: string, k: nat)
    requires k < |s| && s[k] == '.'
    requires forall i :: 0 <= i < k ==> s[i] != '.'
    ensures ReplaceFirstDot(s) == s[..k] + "_" + s[k + 1..]
    decreases k
  {
    if k > 0 {
      var t := s[1..];
      assert t[k - 1] == '.';
      assert forall i :: 0 <= i < k - 1 ==> t[i] != '.' by {
        forall i | 0 <= i < k - 1 ensures t[i] != '.' {
          assert t[i] == s[i + 1];
        }
      }
      ReplaceFirstDotAt(t, k - 1);
      assert [s[0]] + t[..k - 1] == s[..k];
      assert t[k..] == s[k + 1..];
    }
  }

  const LinesPrefix: string := "lines[]."

  /** The keys `getMappedValue` tries, in order, for a matched field: `X`, `lines_X`,
      `line_X` for `lines[].X`, and otherwise the path with its first `.` turned into
      `_`, then the path itself. */
  function ConventionalKeys(getsField: string): seq<string>
  {
    if LinesPrefix <= getsField then
      var lineField := getsField[|LinesPrefix|..];
      [lineField, "lines_" + lineField, "line_" + lineField]
    else [ReplaceFirstDot(getsField), getsField]
  }

  /** `close.find(c => c.target === target)` */
  function FindClose(close: seq<FieldMatch>, target: string): (r: Option<FieldMatch>)
    ensures r.None? <==> target !in CloseTargets(close)
    ensures r.Some? ==> r.value in close && r.value.target == target
    decreases |close|
  {
    if close == [] then None
    else if close[0].target == target then Some(close[0])
    else
      assert CloseTargets(close) == [close[0].target] + CloseTargets(close[1..]);
      FindClose(close[1..], target)
  }

  /** The search stops at the first close match for the target. */
  lemma {:induction false} FindCloseFirst(close: seq<FieldMatch>, target: string, i: nat)
    requires i < |close| && close[i].target == target
    requires forall j :: 0 <= j < i ==> close[j].target != target
    ensures FindClose(close, target) == Some(close[i])
    decreases i
  {
    if i > 0 {
      var rest := close[1..];
      assert rest[i - 1] == close[i];
      forall j | 0 <= j < i - 1
        ensures rest[j].target != target
      {
        assert rest[j] == close[j + 1];
      }
      FindCloseFirst(rest, target, i - 1);
    }
  }

  /** `getMappedValue`: the value of a canonical field in one record. A matched field is
      looked up under conventional keys (the matched candidate is not recorded), the
      first truthy one winning through `||`; a close field under its candidate; any
      other field is `undefined`. */
  function GetMappedValue(row: Row, getsField: string, coverage: CoverageResult): (r: Option<Scalar>)
    ensures getsField !in coverage.matched && getsField !in CloseTargets(coverage.close) ==> r == None
    ensures getsField !in coverage.matched && getsField in CloseTargets(coverage.close) ==>
              exists i :: 0 <= i < |coverage.close| && coverage.close[i].target == getsField &&
                          r == Get(row, coverage.close[i].candidate)
    ensures getsField in coverage.matched ==>
              (exists key :: key in ConventionalKeys(getsField) && r == Get(row, key)) &&
              (Truthy(Get(row, ConventionalKeys(getsField)[0])) ==> r == Get(row, ConventionalKeys(getsField)[0]))
  {
    if getsField in coverage.matched then
      if LinesPrefix <= getsField then
        var lineField := getsField[|LinesPrefix|..];
        Or(Or(Get(row, lineField), Get(row, "lines_" + lineField)), Get(row, "line_" + lineField))
      else
        Or(Get(row, ReplaceFirstDot(getsField)), Get(row, getsField))
    else
      match FindClose(coverage.close, getsField)
      case Some(m) => Get(row, m.candidate)
      case None => None
  }

  /** For a close field of a computed coverage, the value is exactly the record's
      value under its candidate key. */
  lemma CloseFieldReadsItsCandidate(rt: JsRuntime, schema: Gets, records: seq<Row>, row: Row, i: nat)
    requires Distinct(Paths(schema.fields))
    requires i < |Coverage(rt, schema, records).close|
    ensures var cov := Coverage(rt, schema, records);
            GetMappedValue(row, cov.close[i].target, cov) == Get(row, cov.close[i].candidate)
  {
    var cov := Coverage(rt, schema, records);
    CoveragePartition(rt, schema, records);
    CoverageSchemaOrder(rt, schema, records);
    assert CloseTargets(cov.close)[i] == cov.close[i].target;
    forall j | 0 <= j < i
      ensures cov.close[j].target != cov.close[i].target
    {
      assert CloseTargets(cov.close)[j] != CloseTargets(cov.close)[i];
    }
    FindCloseFirst(cov.close, cov.close[i].target, i);
  }

  /** The `||` chain of a matched field, stated over its key list: the value under the
      first key whose value is truthy, or, when none is, the value under the last key. */
  lemma MatchedReadsFirstTruthyKey(row: Row, getsField: string, coverage: CoverageResult)
    requires getsField in coverage.matched
    ensures var keys := ConventionalKeys(getsField);
            forall k :: 0 <= k < |keys| && Truthy(Get(row, keys[k])) &&
                        (forall j :: 0 <= j < k ==> !Truthy(Get(row, keys[j]))) ==>
                          GetMappedValue(row, getsField, coverage) == Get(row, keys[k])
    ensures var keys := ConventionalKeys(getsField);
            (forall k :: 0 <= k < |keys| ==> !Truthy(Get(row, keys[k]))) ==>
              GetMappedValue(row, getsField, coverage) == Get(row, keys[|keys| - 1])
  {
    var keys := ConventionalKeys(getsField);
    var r := GetMappedValue(row, getsField, coverage);
    forall k | 0 <= k < |keys| && Truthy(Get(row, keys[k])) &&
               (forall j :: 0 <= j < k ==> !Truthy(Get(row, keys[j])))
      ensures r == Get(row, keys[k])
    {
      if k == 2 {
        assert !Truthy(Get(row, keys[0])) && !Truthy(Get(row, keys[1]));
      } else if k == 1 {
        assert !Truthy(Get(row, keys[0]));
      }
    }
    if forall k :: 0 <= k < |keys| ==> !Truthy(Get(row, keys[k])) {
      assert !Truthy(Get(row, keys[0])) && !Truthy(Get(row, keys[1]));
    }
  }

  /** `||` passes over a present but falsy value: when the underscore key of a matched
      dotted field holds 0, "", false or null, the dotted key is read instead, and it
      is usually absent. */
  lemma FalsyValueFallsThrough(row: Row, getsField: string, coverage: CoverageResult)
    requires getsField in coverage.matched && !(LinesPrefix <= getsField)
    requires !Truthy(Get(row, ReplaceFirstDot(getsField)))
    ensures GetMappedValue(row, getsField, coverage) == Get(row, getsField)
  {
  }

  /** The key that matched a field is not recorded, so it is never read: a matched field
      whose conventional keys are all absent reads as `undefined`, whatever the record
      holds under the candidate that matched it. */
  lemma MatchedCandidateIsNotRead(row: Row, getsField: string, coverage: CoverageResult)
    requires getsField in coverage.matched
    requires forall key :: key in ConventionalKeys(getsField) ==> key !in row.cells
    ensures GetMappedValue(row, getsField, coverage) == None
  {
    var keys := ConventionalKeys(getsField);
    assert keys[0] in keys && keys[1] in keys;
    if LinesPrefix <= getsField {
      assert keys[2] in keys;
    }
  }
}
