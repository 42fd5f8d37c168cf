/** The `Language` result type and the single-prediction normalizer
    `beautify_one` of luga/artifacts.py. fastText answers one prediction with
    a tuple of labels such as ("__label__da",) and a numpy array holding one
    probability; here the tuple is a `seq<string>` and the array a
    `seq<real>`. */
module Results {
  import opened PyStr

  /** The text fastText puts in front of every label. */
  const LabelPrefix: string := "__label__"

  /** `beautify_one`'s default threshold. */
  const DefaultThreshold: real := 0.5

  /** The exceptions the normalizer can raise. */
  datatype Error =
    | ScoreNotScalar  // `.squeeze().item()` on an array that does not hold exactly one value
    | LabelMissing    // `language[0]` on an empty label tuple
    | ResultsUnbound  // `beautify_many` reads `results` on a path that never bound it

  datatype Result<T> = Ok(value: T) | Err(error: Error)

  /** What `Language.__getitem__` hands back for a known key. */
  datatype Item = Text(text: string) | Number(number: real)

  datatype Option<T> = None | Some(value: T)

  /** One classification outcome; `Language()` is the sentinel ("unknown", 0.0). */
  datatype Language = Language(name: string := "unknown", score: real := 0.0)
  {
    /** The field names, in declaration order. */
    static function Keys(): (ks: seq<string>)
      ensures |ks| == 2 && ks[0] != ks[1]
    {
      ["name", "score"]
    }

    /** Keyed field access: the field for a known key, `None` for any other. */
    function Get(key: string): (r: Option<Item>)
      ensures r.Some? <==> key in Keys()
      ensures key == Keys()[0] ==> r == Some(Text(name))
      ensures key == Keys()[1] ==> r == Some(Number(score))
    {
      if key == "name" then Some(Text(name))
      else if key == "score" then Some(Number(score))
      else None
    }
  }

  /** A raw single prediction: the label tuple and the probability array. */
  datatype Prediction = Prediction(labels: seq<string>, scores: seq<real>)

  /** `.squeeze().item()`: succeeds exactly on an array holding one value. */
  function Squeeze(a: seq<real>): (r: Result<real>)
    ensures r.Ok? <==> |a| == 1
    ensures r.Ok? ==> a == [r.value]
    ensures r.Err? ==> r.error == ScoreNotScalar
  {
    if |a| == 1 then Ok(a[0]) else Err(ScoreNotScalar)
  }

  /** The language code of a raw label: every "__label__" removed. */
  function StripLabel(raw: string): (code: string)
    ensures |code| <= |raw|
  {
    ReplaceAll(raw, LabelPrefix, "")
  }

  /** `beautify_one`: the sentinel below the threshold, otherwise the
      stripped first label with the raw score. */
  function BeautifyOne(response: Prediction, threshold: real := DefaultThreshold): (r: Result<Language>)
    ensures r.Ok? <==> |response.scores| == 1 && (response.scores[0] < threshold || response.labels != [])
    ensures r.Ok? ==> r.value == Language() || threshold <= r.value.score == response.scores[0]
    ensures r.Ok? && threshold <= response.scores[0] ==>
              r.value == Language(StripLabel(response.labels[0]), response.scores[0])
    ensures |response.scores| != 1 ==> r == Err(ScoreNotScalar)
    ensures r.Err? && |response.scores| == 1 ==> r.error == LabelMissing
  {
    match Squeeze(response.scores)
    case Err(e) => Err(e)
    case Ok(score) =>
      if score < threshold then Ok(Language())
      else if response.labels == [] then Err(LabelMissing)
      else Ok(Language(name := StripLabel(response.labels[0]), score := score))
  }

  /** A one-element score array below the threshold always yields the
      sentinel, whatever the labels are (even none). */
  lemma BelowThresholdIsSentinel(labels: seq<string>, score: real, threshold: real)
    requires score < threshold
    ensures BeautifyOne(Prediction(labels, [score]), threshold) == Ok(Language())
  {
  }

  /** At or above the threshold the result carries the first label, stripped,
      and the raw score; the comparison is strict, so a score equal to the
      threshold is accepted. */
  lemma AtOrAboveThresholdIsNamed(labels: seq<string>, score: real, threshold: real)
    requires threshold <= score && labels != []
    ensures BeautifyOne(Prediction(labels, [score]), threshold)
         == Ok(Language(StripLabel(labels[0]), score))
  {
  }

  /** With a positive threshold the sentinel comes back exactly when the score
      is below the threshold: an accepted score is at least the threshold and
      so cannot be the sentinel's 0.0. */
  lemma SentinelIffBelowThreshold(p: Prediction, threshold: real)
    requires 0.0 < threshold
    requires BeautifyOne(p, threshold).Ok?
    ensures BeautifyOne(p, threshold).value == Language() <==> p.scores[0] < threshold
  {
  }

  /** With a threshold of 0.0 or less the "exactly when" fails: the label
      "__label__unknown" with score 0.0 is accepted and yet equals the sentinel. */
  lemma SentinelAmbiguousAtZeroThreshold()
    ensures BeautifyOne(Prediction(["__label__unknown"], [0.0]), 0.0) == Ok(Language())
  {
    StripLabelOfPrefixedCode("unknown");
    assert LabelPrefix + "unknown" == "__label__unknown";
  }

  /** A label made of the prefix and a code free of the prefix yields that code. */
  lemma {:induction false} StripLabelOfPrefixedCode(code: string)
    requires !Contains(code, LabelPrefix)
    ensures StripLabel(LabelPrefix + code) == code
  {
    ReplaceLeading(LabelPrefix, code, "");
  }

  /** The keys, looked up in order, give back every field of the value. */
  lemma GetKeysRebuilds(l: Language)
    ensures forall k :: k in Language.Keys() ==> l.Get(k).Some?
    ensures Language(l.Get(Language.Keys()[0]).value.text, l.Get(Language.Keys()[1]).value.number) == l
  {
  }

  /** (("__label__en",), [0.9827]) at 0.5 is English with its score. */
  lemma ExampleEnglish()
    ensures BeautifyOne(Prediction(["__label__en"], [0.9827])) == Ok(Language("en", 0.9827))
  {
    StripLabelOfPrefixedCode("en");
  }

  /** (("__label__xx",), [0.12]) at 0.5 is the sentinel. */
  lemma ExampleBelowThreshold()
    ensures BeautifyOne(Prediction(["__label__xx"], [0.12])) == Ok(Language("unknown", 0.0))
  {
  }
}
