/** The batch normalizer `beautify_many` of luga/artifacts.py. fastText
    answers a batch with a list of label lists and a list of one-element
    probability arrays; `zip` pairs them positionally and stops at the
    shorter list. */
module Batch {
  import opened Results

  /** What a successful call returns: the plain list of language codes, or
      the same codes in a numpy array when `to_array` is set. */
  datatype Output = NameList(names: seq<string>) | NameArray(names: seq<string>)

  /** Python's `zip(languages, scores)`: positional pairs, as many as the
      shorter input has elements. */
  function Zip(languages: seq<seq<string>>, scores: seq<seq<real>>): (pairs: seq<Prediction>)
    ensures |pairs| == if |languages| <= |scores| then |languages| else |scores|
    ensures forall i :: 0 <= i < |pairs| ==> pairs[i] == Prediction(languages[i], scores[i])
  {
    if languages == [] || scores == [] then []
    else [Prediction(languages[0], scores[0])] + Zip(languages[1..], scores[1..])
  }

  /** The list `results_` the loop builds: each pair normalized in order,
      or the exception of the first pair that fails. */
  function BeautifyEach(pairs: seq<Prediction>, threshold: real): (r: Result<seq<Language>>)
    ensures r.Ok? ==> |r.value| == |pairs|
    ensures r.Err? ==> exists k :: 0 <= k < |pairs| && BeautifyOne(pairs[k], threshold) == Err(r.error)
  {
    if pairs == [] then Ok([])
    else match BeautifyOne(pairs[0], threshold)
      case Err(e) => Err(e)
      case Ok(first) =>
        match BeautifyEach(pairs[1..], threshold)
        case Err(e) => Err(e)
        case Ok(rest) => Ok([first] + rest)
  }

  /** `[response.name for response in results_]` */
  function Names(ls: seq<Language>): (names: seq<string>)
    ensures |names| == |ls|
    ensures forall i :: 0 <= i < |ls| ==> names[i] == ls[i].name
  {
    if ls == [] then [] else [ls[0].name] + Names(ls[1..])
  }

  /** What `beautify_many` returns or raises. `results` is bound only when
      `only_language` is set, so without it the call ends in the unbound-name
      error once the loop is through, whatever `to_array` says. */
  function BeautifyManyOf(languages: seq<seq<string>>, scores: seq<seq<real>>, threshold: real,
                          onlyLanguage: bool, toArray: bool): (r: Result<Output>)
    ensures !onlyLanguage ==> r.Err?
    ensures r.Ok? ==> (r.value.NameArray? <==> toArray)
    ensures r.Ok? ==> |r.value.names| == if |languages| <= |scores| then |languages| else |scores|
  {
    match BeautifyEach(Zip(languages, scores), threshold)
    case Err(e) => Err(e)
    case Ok(ls) =>
      if !onlyLanguage then Err(ResultsUnbound)
      else if toArray then Ok(NameArray(Names(ls)))
      else Ok(NameList(Names(ls)))
  }

  /** The loop succeeds exactly when every pair does, and then it holds one
      normalized value per pair, in input order. */
  lemma {:induction false} BeautifyEachOk(pairs: seq<Prediction>, threshold: real)
    ensures BeautifyEach(pairs, threshold).Ok?
        <==> forall i :: 0 <= i < |pairs| ==> BeautifyOne(pairs[i], threshold).Ok?
    ensures BeautifyEach(pairs, threshold).Ok? ==>
              |BeautifyEach(pairs, threshold).value| == |pairs| &&
              forall i :: 0 <= i < |pairs| ==>
                Ok(BeautifyEach(pairs, threshold).value[i]) == BeautifyOne(pairs[i], threshold)
  {
    if pairs != [] {
      BeautifyEachOk(pairs[1..], threshold);
      assert forall i :: 1 <= i < |pairs| ==> pairs[1..][i - 1] == pairs[i];
    }
  }

  /** When the pairs before index k succeed and pair k fails, the loop stops
      with pair k's exception. */
  lemma {:induction false} BeautifyEachFirstError(pairs: seq<Prediction>, threshold: real, k: nat)
    requires k < |pairs|
    requires forall i :: 0 <= i < k ==> BeautifyOne(pairs[i], threshold).Ok?
    requires BeautifyOne(pairs[k], threshold).Err?
    ensures BeautifyEach(pairs, threshold) == Err(BeautifyOne(pairs[k], threshold).error)
  {
    if k > 0 {
      assert forall i :: 0 <= i < k - 1 ==> pairs[1..][i] == pairs[i + 1];
      BeautifyEachFirstError(pairs[1..], threshold, k - 1);
    }
  }

  /** Normalizing a non-empty list normalizes its head, then its tail. */
  lemma EachCons(first: Prediction, rest: seq<Prediction>, threshold: real)
    requires BeautifyOne(first, threshold).Ok? && BeautifyEach(rest, threshold).Ok?
    ensures BeautifyEach([first] + rest, threshold)
         == Ok([BeautifyOne(first, threshold).value] + BeautifyEach(rest, threshold).value)
  {
    assert ([first] + rest)[1..] == rest;
  }

  /** `beautify_many`: the `for` loop over `zip` appends one `Language` per
      pair, then the two flags shape the result. */
  method BeautifyMany(languages: seq<seq<string>>, scores: seq<seq<real>>,
                      threshold: real := DefaultThreshold,
                      onlyLanguage: bool := false, toArray: bool := false)
    returns (r: Result<Output>)
    ensures r == BeautifyManyOf(languages, scores, threshold, onlyLanguage, toArray)
  {
    var pairs := Zip(languages, scores);
    var results_: seq<Language> := [];
    var i := 0;
    while i < |pairs|
      invariant 0 <= i <= |pairs|
      invariant |results_| == i
      invariant forall k :: 0 <= k < i ==> BeautifyOne(pairs[k], threshold) == Ok(results_[k])
    {
      var lang, score_ := pairs[i].labels, pairs[i].scores;
      var squeezed := Squeeze(score_);
      if squeezed.Err? {
        BeautifyEachFirstError(pairs, threshold, i);
        return Err(squeezed.error);
      }
      var score := squeezed.value;
      if score < threshold {
        results_ := results_ + [Language()];
      } else {
        if lang == [] {
          BeautifyEachFirstError(pairs, threshold, i);
          return Err(LabelMissing);
        }
        results_ := results_ + [Language(name := StripLabel(lang[0]), score := score)];
      }
      i := i + 1;
    }
    BeautifyEachOk(pairs, threshold);
    assert BeautifyEach(pairs, threshold).value == results_;
    if !onlyLanguage {
      return Err(ResultsUnbound);
    }
    var results := Names(results_);
    if toArray {
      r := Ok(NameArray(results));
    } else {
      r := Ok(NameList(results));
    }
  }

  /** Element i of the output is the name `beautify_one` gives pair i, and
      the output is as long as the shorter input. */
  lemma ManyIsPairwiseOne(languages: seq<seq<string>>, scores: seq<seq<real>>, threshold: real, toArray: bool)
    requires BeautifyManyOf(languages, scores, threshold, true, toArray).Ok?
    ensures var out := BeautifyManyOf(languages, scores, threshold, true, toArray).value.names;
      |out| == (if |languages| <= |scores| then |languages| else |scores|) &&
      forall i :: 0 <= i < |out| ==>
        BeautifyOne(Prediction(languages[i], scores[i]), threshold).Ok? &&
        out[i] == BeautifyOne(Prediction(languages[i], scores[i]), threshold).value.name
  {
    BeautifyEachOk(Zip(languages, scores), threshold);
  }

  /** Every zipped pair goes through `beautify_one` without an exception. */
  predicate AllPairsNormalize(languages: seq<seq<string>>, scores: seq<seq<real>>, threshold: real)
  {
    var pairs := Zip(languages, scores);
    forall i :: 0 <= i < |pairs| ==> BeautifyOne(pairs[i], threshold).Ok?
  }

  /** The call succeeds exactly when `only_language` is set and every zipped
      pair normalizes; once every pair normalizes, leaving `only_language`
      unset ends in the unbound-name error, with or without `to_array`. */
  lemma ManySucceedsIff(languages: seq<seq<string>>, scores: seq<seq<real>>, threshold: real,
                        onlyLanguage: bool, toArray: bool)
    ensures BeautifyManyOf(languages, scores, threshold, onlyLanguage, toArray).Ok?
        <==> onlyLanguage && AllPairsNormalize(languages, scores, threshold)
    ensures !onlyLanguage && AllPairsNormalize(languages, scores, threshold)
        ==> BeautifyManyOf(languages, scores, threshold, onlyLanguage, toArray) == Err(ResultsUnbound)
  {
    BeautifyEachOk(Zip(languages, scores), threshold);
  }

  /** `to_array` changes only the container: same outcome, same codes. */
  lemma ToArrayKeepsNames(languages: seq<seq<string>>, scores: seq<seq<real>>, threshold: real)
    ensures var asList := BeautifyManyOf(languages, scores, threshold, true, false);
            var asArray := BeautifyManyOf(languages, scores, threshold, true, true);
      asList.Ok? == asArray.Ok? &&
      (asList.Ok? ==> asList.value.NameList? && asArray.value.NameArray? &&
                      asList.value.names == asArray.value.names) &&
      (asList.Err? ==> asList.error == asArray.error)
  {
  }

  /** The batch ([["__label__da"], ["__label__en"]], [[0.998], [0.12]]) at 0.5
      with `only_language` gives ["da", "unknown"]. */
  lemma ExampleBatch()
    ensures BeautifyManyOf([["__label__da"], ["__label__en"]], [[0.998], [0.12]], 0.5, true, false)
         == Ok(NameList(["da", "unknown"]))
  {
    StripLabelOfPrefixedCode("da");
    assert LabelPrefix + "da" == "__label__da";
    var da, en := Prediction(["__label__da"], [0.998]), Prediction(["__label__en"], [0.12]);
    var ls := [Language("da", 0.998), Language()];
    assert BeautifyOne(da, 0.5) == Ok(Language("da", 0.998));
    assert BeautifyOne(en, 0.5) == Ok(Language());
    assert BeautifyEach([en], 0.5) == Ok([Language()] + []);
    assert [Language()] + [] == [Language()];
    EachCons(da, [en], 0.5);
    assert BeautifyEach([da] + [en], 0.5) == Ok([Language("da", 0.998)] + [Language()]);
    assert [da] + [en] == [da, en] == Zip([["__label__da"], ["__label__en"]], [[0.998], [0.12]]);
    assert [Language("da", 0.998)] + [Language()] == ls;
    assert BeautifyEach([da, en], 0.5) == Ok(ls);
    assert Names(ls) == ["da", "unknown"];
  }
}
