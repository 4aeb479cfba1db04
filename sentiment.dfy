/**
 * The reflection sentiment classifier: a keyword rule, the normalisation of an
 * inference service's response, and the ordered chain of four hosted models that
 * falls back to the keyword rule. The network is abstracted as one attempt outcome
 * per model, and the API token as a flag.
 */
module Sentiment {
  import opened Wrappers
  import opened Text
  import opened Json
  import opened Seqs

  datatype Sentiment = Positive | Negative | Neutral

  // ---------------------------------------------------------------------------
  // Keyword rule

  const PositiveWords: seq<string> := [
    "good", "great", "excellent", "amazing", "wonderful", "fantastic", "awesome",
    "love", "enjoy", "happy", "pleased", "satisfied", "proud", "accomplished",
    "successful", "easy", "fun", "exciting", "perfect", "brilliant", "outstanding"
  ]

  const NegativeWords: seq<string> := [
    "bad", "terrible", "awful", "horrible", "hate", "dislike", "frustrated",
    "angry", "disappointed", "difficult", "hard", "impossible", "failed",
    "struggled", "stressed", "worried", "confused", "overwhelmed", "upset"
  ]

  /** How many entries of `words` occur somewhere in `text`; each entry counts once. */
  function MatchCount(text: string, words: seq<string>): (n: nat)
    ensures n <= |words|
    ensures n > 0 <==> exists k :: 0 <= k < |words| && Contains(text, words[k])
  {
    if words == [] then 0
    else
      var front := words[..|words| - 1];
      assert forall k :: 0 <= k < |front| ==> front[k] == words[k];
      MatchCount(text, front) + (if Contains(text, words[|words| - 1]) then 1 else 0)
  }

  /** The count is the number of keywords that occur, however often each occurs. */
  lemma {:induction false} MatchCountIsOccurringWords(text: string, words: seq<string>)
    ensures MatchCount(text, words) == |Filter(words, w => Contains(text, w))|
  {
    if words != [] {
      var front, last := words[..|words| - 1], words[|words| - 1];
      MatchCountIsOccurringWords(text, front);
      assert words == front + [last];
      FilterAppend(front, [last], w => Contains(text, w));
      FilterSingle(last, w => Contains(text, w));
    }
  }

  /** POSITIVE when more positive keywords occur, NEGATIVE when more negative ones do. */
  function Verdict(positives: nat, negatives: nat): (s: Sentiment)
    ensures s == Positive <==> positives > negatives
    ensures s == Negative <==> negatives > positives
    ensures s == Neutral <==> positives == negatives
  {
    if positives > negatives then Positive
    else if negatives > positives then Negative
    else Neutral
  }

  /** What the keyword rule answers for `text`, matching case-insensitively. */
  function KeywordSentiment(text: string): Sentiment {
    var lower := ToLower(text);
    Verdict(MatchCount(lower, PositiveWords), MatchCount(lower, NegativeWords))
  }

  /** The keyword answer compares how many positive and how many negative keywords the lower-cased text contains. */
  lemma KeywordSentimentCountsKeywords(text: string)
    ensures var lower := ToLower(text);
      KeywordSentiment(text)
        == Verdict(|Filter(PositiveWords, w => Contains(lower, w))|, |Filter(NegativeWords, w => Contains(lower, w))|)
  {
    MatchCountIsOccurringWords(ToLower(text), PositiveWords);
    MatchCountIsOccurringWords(ToLower(text), NegativeWords);
  }

  /** `ruleBasedSentiment`: two counting loops over the keyword lists. */
  method RuleBasedSentiment(text: string) returns (s: Sentiment)
    ensures s == KeywordSentiment(text)
  {
    var lowerText := ToLower(text);
    var positiveCount, negativeCount := 0, 0;
    for i := 0 to |PositiveWords|
      invariant positiveCount == MatchCount(lowerText, PositiveWords[..i])
    {
      MatchCountStep(lowerText, PositiveWords, i);
      if Contains(lowerText, PositiveWords[i]) {
        positiveCount := positiveCount + 1;
      }
    }
    for i := 0 to |NegativeWords|
      invariant negativeCount == MatchCount(lowerText, NegativeWords[..i])
    {
      MatchCountStep(lowerText, NegativeWords, i);
      if Contains(lowerText, NegativeWords[i]) {
        negativeCount := negativeCount + 1;
      }
    }
    assert PositiveWords[..|PositiveWords|] == PositiveWords;
    assert NegativeWords[..|NegativeWords|] == NegativeWords;
    if positiveCount > negativeCount {
      s := Positive;
    } else if negativeCount > positiveCount {
      s := Negative;
    } else {
      s := Neutral;
    }
  }

  /** One more keyword adds one to the count exactly when it occurs. */
  lemma MatchCountStep(text: string, words: seq<string>, i: nat)
    requires i < |words|
    ensures MatchCount(text, words[..i + 1]) == MatchCount(text, words[..i]) + if Contains(text, words[i]) then 1 else 0
  {
    assert words[..i + 1][..i] == words[..i];
  }

  /** Matching ignores case: the text and its lower-cased form get the same answer. */
  lemma KeywordSentimentIgnoresCase(text: string)
    ensures KeywordSentiment(ToLower(text)) == KeywordSentiment(text)
  {
    ToLowerIdempotent(text);
  }

  /** Substring matching: upper-case "FUNNY" contains the keyword "fun". */
  lemma FunnyCountsFun()
    ensures Contains(ToLower("FUNNY"), "fun")
  {
    assert ToLower("FUNNY") == "funny";
    assert OccursAt("funny", "fun", 0);
  }

  // ---------------------------------------------------------------------------
  // Inference response normalisation

  /** One `{label, score}` entry of a classifier response. */
  datatype Classification = Classification(name: string, score: real)

  /** An entry is kept when it is an object with a string `label` and a numeric `score`. */
  function AsClassification(v: Value): (c: Option<Classification>)
    ensures c.Some? <==> v.JObj? && "label" in v.fields && v.fields["label"].JStr?
                         && "score" in v.fields && v.fields["score"].JNum?
    ensures c.Some? ==> v.fields["label"] == JStr(c.value.name) && v.fields["score"] == JNum(c.value.score)
  {
    if v.JObj? && "label" in v.fields && v.fields["label"].JStr? && "score" in v.fields && v.fields["score"].JNum?
    then Some(Classification(v.fields["label"].s, v.fields["score"].n))
    else None
  }

  /** The valid entries of a response array, in order. */
  function ValidEntries(items: seq<Value>): (r: seq<Classification>)
    ensures |r| <= |items|
    ensures forall k :: 0 <= k < |r| ==> exists v :: v in items && AsClassification(v) == Some(r[k])
    ensures forall k :: 0 <= k < |items| && AsClassification(items[k]).Some? ==> AsClassification(items[k]).value in r
  {
    if items == [] then []
    else
      var rest := ValidEntries(items[1..]);
      assert forall k :: 1 <= k < |items| ==> items[k] == items[1..][k - 1];
      match AsClassification(items[0])
      case Some(c) => [c] + rest
      case None => rest
  }

  /**
   * The kept entries are the well-formed entries of the response, in response order
   * and each once per occurrence; this order decides which of two tied scores wins.
   */
  lemma {:induction false} ValidEntriesInOrder(items: seq<Value>)
    ensures var kept := Filter(items, (v: Value) => AsClassification(v).Some?);
      && |ValidEntries(items)| == |kept|
      && forall k :: 0 <= k < |kept| ==> ValidEntries(items)[k] == AsClassification(kept[k]).value
  {
    if items != [] {
      var p := (v: Value) => AsClassification(v).Some?;
      ValidEntriesInOrder(items[1..]);
      ValidEntriesFirst(items);
      FilterFirst(items, p);
    }
  }

  /** Unfolding the kept entries at the first item. */
  lemma ValidEntriesFirst(items: seq<Value>)
    requires items != []
    ensures ValidEntries(items) ==
              (if AsClassification(items[0]).Some? then [AsClassification(items[0]).value] else []) + ValidEntries(items[1..])
  {
  }

  /**
   * The entry `reduce((prev, cur) => prev.score > cur.score ? prev : cur)` keeps:
   * its score is maximal, and every later entry scores strictly less, so the last of
   * several equal maxima wins.
   */
  function TopIndex(entries: seq<Classification>): (k: nat)
    requires |entries| > 0
    ensures k < |entries|
    ensures forall j :: 0 <= j < |entries| ==> entries[j].score <= entries[k].score
    ensures forall j :: k < j < |entries| ==> entries[j].score < entries[k].score
  {
    if |entries| == 1 then 0
    else
      var last := |entries| - 1;
      var prev := TopIndex(entries[..last]);
      assert forall j :: 0 <= j < last ==> entries[..last][j] == entries[j];
      if entries[prev].score > entries[last].score then prev else last
  }

  /** Label table for array responses, keyed as written (some keys are upper-case). */
  function LabelMapping(key: string): Option<Sentiment> {
    match key
    case "POSITIVE" => Some(Positive)
    case "NEGATIVE" => Some(Negative)
    case "NEUTRAL" => Some(Neutral)
    case "1 stars" => Some(Negative)
    case "2 stars" => Some(Negative)
    case "3 stars" => Some(Neutral)
    case "4 stars" => Some(Positive)
    case "5 stars" => Some(Positive)
    case "1 star" => Some(Negative)
    case "2 star" => Some(Negative)
    case "3 star" => Some(Neutral)
    case "4 star" => Some(Positive)
    case "5 star" => Some(Positive)
    case "LABEL_0" => Some(Negative)
    case "LABEL_1" => Some(Positive)
    case "LABEL_2" => Some(Neutral)
    case "negative" => Some(Negative)
    case "positive" => Some(Positive)
    case "neutral" => Some(Neutral)
    case "joy" => Some(Positive)
    case "optimism" => Some(Positive)
    case "love" => Some(Positive)
    case "excitement" => Some(Positive)
    case "gratitude" => Some(Positive)
    case "pride" => Some(Positive)
    case "approval" => Some(Positive)
    case "caring" => Some(Positive)
    case "admiration" => Some(Positive)
    case "relief" => Some(Positive)
    case "sadness" => Some(Negative)
    case "anger" => Some(Negative)
    case "fear" => Some(Negative)
    case "disappointment" => Some(Negative)
    case "disapproval" => Some(Negative)
    case "annoyance" => Some(Negative)
    case "grief" => Some(Negative)
    case "embarrassment" => Some(Negative)
    case "nervousness" => Some(Negative)
    case "remorse" => Some(Negative)
    case "disgust" => Some(Negative)
    case "surprise" => Some(Neutral)
    case "curiosity" => Some(Neutral)
    case "confusion" => Some(Neutral)
    case "realization" => Some(Neutral)
    case "desire" => Some(Neutral)
    case "amusement" => Some(Positive)
    case _ => None
  }

  /** Label table for a single-object response: the three sentiment names, in upper and lower case. */
  function SingleLabelMapping(key: string): (r: Option<Sentiment>)
    ensures r == Some(Positive) <==> key == "POSITIVE" || key == "positive"
    ensures r == Some(Negative) <==> key == "NEGATIVE" || key == "negative"
    ensures r == Some(Neutral) <==> key == "NEUTRAL" || key == "neutral"
  {
    match key
    case "POSITIVE" => Some(Positive)
    case "NEGATIVE" => Some(Negative)
    case "NEUTRAL" => Some(Neutral)
    case "positive" => Some(Positive)
    case "negative" => Some(Negative)
    case "neutral" => Some(Neutral)
    case _ => None
  }

  /** `labelMappings[label.toLowerCase()] || 'NEUTRAL'`: a miss is NEUTRAL. */
  function LookupLabel(name: string): (s: Sentiment)
    ensures s != Neutral ==> LabelMapping(ToLower(name)) == Some(s)
  {
    LabelMapping(ToLower(name)).GetOr(Neutral)
  }

  /** The same lookup in the single-object table. */
  function LookupSingleLabel(name: string): (s: Sentiment)
    ensures s != Neutral ==> SingleLabelMapping(ToLower(name)) == Some(s)
  {
    SingleLabelMapping(ToLower(name)).GetOr(Neutral)
  }

  /** The array table extends the single-object table: wherever that table answers, this one agrees. */
  lemma LabelTablesAgree(key: string)
    requires SingleLabelMapping(key).Some?
    ensures LabelMapping(key) == SingleLabelMapping(key)
  {
  }

  /** So both lookups give the same answer for a sentiment name, in either case. */
  lemma LookupsAgree(name: string)
    requires SingleLabelMapping(ToLower(name)).Some?
    ensures LookupLabel(name) == LookupSingleLabel(name)
  {
    LabelTablesAgree(ToLower(name));
  }

  /** Lookups ignore case: a label and its lower-cased form map alike in both tables. */
  lemma LookupIgnoresCase(name: string)
    ensures LookupLabel(ToLower(name)) == LookupLabel(name)
    ensures LookupSingleLabel(ToLower(name)) == LookupSingleLabel(name)
  {
    ToLowerIdempotent(name);
  }

  /**
   * What the winning entry of an array response maps to. The guard for an empty
   * label changes nothing: the lookup already answers NEUTRAL for it.
   */
  function EntrySentiment(c: Classification): (s: Sentiment)
    ensures s == LookupLabel(c.name)
  {
    assert ToLower("") == "";
    if c.name == "" then Neutral else LookupLabel(c.name)
  }

  /** `[[...]]` becomes `[...]`: one level of nesting is removed, no more. */
  function Unwrap(payload: Value): (r: Value)
    ensures payload.JArr? && |payload.items| > 0 && payload.items[0].JArr? ==> r == payload.items[0]
    ensures !(payload.JArr? && |payload.items| > 0 && payload.items[0].JArr?) ==> r == payload
  {
    if payload.JArr? && |payload.items| > 0 && payload.items[0].JArr? then payload.items[0] else payload
  }

  /** The sentiment a successful inference response yields. */
  function Normalise(payload: Value): Sentiment {
    var processed := Unwrap(payload);
    if processed.JArr? && |processed.items| > 0 then
      var valid := ValidEntries(processed.items);
      if valid == [] then Neutral
      else
        EntrySentiment(valid[TopIndex(valid)])
    else if processed.JObj? && "label" in processed.fields then
      if processed.fields["label"].JStr? then LookupSingleLabel(processed.fields["label"].s)
      else Neutral
    else Neutral
  }

  /**
   * What a response reads as: from an array, the label of the entry the reduction keeps
   * (the last top-scoring valid entry); from an object, its string label in the
   * single-object table; from anything else, NEUTRAL.
   */
  lemma NormaliseCases(payload: Value)
    ensures var processed := Unwrap(payload);
      processed.JArr? && ValidEntries(processed.items) != [] ==>
        var valid := ValidEntries(processed.items);
        Normalise(payload) == LookupLabel(valid[TopIndex(valid)].name)
    ensures var processed := Unwrap(payload);
      processed.JObj? && "label" in processed.fields && processed.fields["label"].JStr? ==>
        Normalise(payload) == LookupSingleLabel(processed.fields["label"].s)
    ensures var processed := Unwrap(payload);
      !(processed.JArr? && ValidEntries(processed.items) != [])
      && !(processed.JObj? && "label" in processed.fields && processed.fields["label"].JStr?) ==>
        Normalise(payload) == Neutral
  {
    var processed := Unwrap(payload);
    if processed.JArr? && ValidEntries(processed.items) != [] {
      assert |processed.items| > 0;
    }
  }

  /**
   * The entry the reduction keeps is THE last maximum: any entry whose score is
   * maximal and that no later entry ties is the one chosen.
   */
  lemma TopIndexIsLastMaximum(entries: seq<Classification>, k: nat)
    requires k < |entries|
    requires forall j :: 0 <= j < |entries| ==> entries[j].score <= entries[k].score
    requires forall j :: k < j < |entries| ==> entries[j].score < entries[k].score
    ensures TopIndex(entries) == k
  {
  }

  /** With no valid entry in an array response, the answer is NEUTRAL. */
  lemma NoValidEntryIsNeutral(payload: Value)
    requires Unwrap(payload).JArr?
    requires forall k :: 0 <= k < |Unwrap(payload).items| ==> AsClassification(Unwrap(payload).items[k]).None?
    ensures Normalise(payload) == Neutral
  {
  }

  /**
   * Lower-casing the label first means the upper-case keys of the table can never
   * match: `LABEL_0`, `LABEL_1` and `LABEL_2` (and `POSITIVE`, `NEGATIVE`,
   * `NEUTRAL` in their upper-case spelling) are dead entries.
   */
  lemma UpperCaseKeysUnreachable(name: string)
    ensures ToLower(name) != "LABEL_0" && ToLower(name) != "LABEL_1" && ToLower(name) != "LABEL_2"
    ensures ToLower(name) != "POSITIVE" && ToLower(name) != "NEGATIVE" && ToLower(name) != "NEUTRAL"
  {
    if |name| > 0 {
      ToLowerHasNoUpper(name, 0);
    }
  }

  /** So a generic classifier's `LABEL_0` comes out NEUTRAL, not NEGATIVE. */
  lemma GenericLabelsAreNeutral()
    ensures LookupLabel("LABEL_0") == Neutral
    ensures LookupLabel("LABEL_1") == Neutral
    ensures LookupLabel("LABEL_2") == Neutral
  {
    assert ToLower("LABEL_0") == "label_0";
    assert ToLower("LABEL_1") == "label_1";
    assert ToLower("LABEL_2") == "label_2";
  }

  /** A well-formed `{label, score}` object. */
  function EntryValue(c: Classification): Value {
    JObj(map["label" := JStr(c.name), "score" := JNum(c.score)])
  }

  /** Both entries of a two-entry response are kept, in order. */
  lemma TwoValidEntries(a: Classification, b: Classification)
    ensures ValidEntries([EntryValue(a), EntryValue(b)]) == [a, b]
  {
    var items := [EntryValue(a), EntryValue(b)];
    assert AsClassification(items[1]) == Some(b);
    assert items[1..] == [items[1]];
    assert ValidEntries(items[1..]) == [b];
    assert AsClassification(items[0]) == Some(a);
  }

  /** Of two entries the reduction keeps the second unless the first scores strictly higher. */
  lemma TwoEntryTop(a: Classification, b: Classification)
    ensures TopIndex([a, b]) == if a.score > b.score then 0 else 1
  {
    assert [a, b][..1] == [a];
  }

  /** Of two entries the second wins unless the first scores strictly higher. */
  lemma TwoEntryResponse(a: Classification, b: Classification)
    ensures Normalise(JArr([EntryValue(a), EntryValue(b)])) == EntrySentiment(if a.score > b.score then a else b)
  {
    var items := [EntryValue(a), EntryValue(b)];
    assert Unwrap(JArr(items)) == JArr(items);
    TwoValidEntries(a, b);
    TwoEntryTop(a, b);
  }

  /** A response nested one level deep reads the same as the inner array. */
  lemma NestedResponse(items: seq<Value>)
    requires items != [] && !items[0].JArr?
    ensures Normalise(JArr([JArr(items)])) == Normalise(JArr(items))
  {
  }

  /** A star-rating response: the top entry "5 stars" gives POSITIVE, through the nesting. */
  lemma FiveStarsIsPositive()
    ensures Normalise(JArr([JArr([EntryValue(Classification("1 star", 0.1)),
                                  EntryValue(Classification("5 stars", 0.9))])])) == Positive
  {
    var one, five := Classification("1 star", 0.1), Classification("5 stars", 0.9);
    NestedResponse([EntryValue(one), EntryValue(five)]);
    TwoEntryResponse(one, five);
    FiveStarsLabel();
  }

  lemma FiveStarsLabel()
    ensures EntrySentiment(Classification("5 stars", 0.9)) == Positive
  {
    assert ToLower("5 stars") == "5 stars";
  }

  lemma NegativeLabel()
    ensures EntrySentiment(Classification("negative", 0.5)) == Negative
  {
    assert ToLower("negative") == "negative";
  }

  /** On equal scores the later entry wins. */
  lemma TieGoesToLaterEntry()
    ensures Normalise(JArr([EntryValue(Classification("positive", 0.5)),
                            EntryValue(Classification("negative", 0.5))])) == Negative
  {
    TwoEntryResponse(Classification("positive", 0.5), Classification("negative", 0.5));
    NegativeLabel();
  }

  /** A response with nothing usable is NEUTRAL, never the keyword rule. */
  lemma UnusableResponsesAreNeutral(payload: Value)
    requires payload.JNull? || payload.JBool? || payload.JNum? || payload.JStr? || payload == JArr([])
             || (payload.JObj? && "label" !in payload.fields)
    ensures Normalise(payload) == Neutral
  {
  }

  // ---------------------------------------------------------------------------
  // Fallback chain

  /** The outcome of asking one model: no usable response, or a parsed JSON body. */
  datatype Attempt = Failed | Payload(body: Value)

  /** The primary model, then the three backups, in the order they are tried. */
  const Models: seq<string> := [
    "nlptown/bert-base-multilingual-uncased-sentiment",
    "SamLowe/roberta-base-go_emotions",
    "cardiffnlp/twitter-roberta-base-sentiment-latest",
    "distilbert-base-uncased-finetuned-sst-2-english"
  ]

  /** The first model that answers decides; when every one fails, the keyword rule does. */
  function ChainSentiment(text: string, attempts: seq<Attempt>): Sentiment {
    if attempts == [] then KeywordSentiment(text)
    else if attempts[0].Payload? then Normalise(attempts[0].body)
    else ChainSentiment(text, attempts[1..])
  }

  /** The chain's answer is the keyword rule's or the normalised payload of some model that answered. */
  lemma {:induction false} ChainAnswerSource(text: string, attempts: seq<Attempt>)
    ensures || ChainSentiment(text, attempts) == KeywordSentiment(text)
            || exists k :: 0 <= k < |attempts| && attempts[k].Payload? && ChainSentiment(text, attempts) == Normalise(attempts[k].body)
  {
    if attempts != [] && attempts[0].Failed? {
      ChainAnswerSource(text, attempts[1..]);
      assert forall k :: 0 <= k < |attempts| - 1 ==> attempts[1..][k] == attempts[k + 1];
    }
  }

  /** `analyzeSentiment`: `attempts[i]` is what model `i` returns if it is asked. */
  method AnalyzeSentiment(text: string, hasToken: bool, attempts: seq<Attempt>) returns (s: Sentiment)
    requires |attempts| == |Models|
    ensures s == if hasToken then ChainSentiment(text, attempts) else KeywordSentiment(text)
  {
    if !hasToken {
      s := RuleBasedSentiment(text);
      return;
    }
    for i := 0 to |Models|
      invariant ChainSentiment(text, attempts) == ChainSentiment(text, attempts[i..])
    {
      assert attempts[i..][1..] == attempts[i + 1..];
      match attempts[i]
      case Failed =>
        if i < |Models| - 1 {
          continue;
        } else {
          s := RuleBasedSentiment(text);
          return;
        }
      case Payload(body) =>
        s := Normalise(body);
        return;
    }
    s := RuleBasedSentiment(text);
  }

  /** When every model fails the answer is the keyword rule's. */
  lemma {:induction false} AllFailedFallsBack(text: string, attempts: seq<Attempt>)
    requires forall k :: 0 <= k < |attempts| ==> attempts[k].Failed?
    ensures ChainSentiment(text, attempts) == KeywordSentiment(text)
  {
    if attempts != [] {
      AllFailedFallsBack(text, attempts[1..]);
    }
  }

  /** The first model that answers alone decides, whatever the later ones would say. */
  lemma {:induction false} FirstAnswerDecides(text: string, attempts: seq<Attempt>, k: nat)
    requires k < |attempts| && attempts[k].Payload?
    requires forall j :: 0 <= j < k ==> attempts[j].Failed?
    ensures ChainSentiment(text, attempts) == Normalise(attempts[k].body)
  {
    if k > 0 {
      FirstAnswerDecides(text, attempts[1..], k - 1);
    }
  }
}
