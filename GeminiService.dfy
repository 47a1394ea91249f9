/**
 * The recommendation client (services/geminiService.ts): the prompt built from the
 * three preference fields, and the check applied to the model's parsed reply. The
 * outbound call itself is a parameter `ai` mapping the prompt to an abstract reply.
 */
module GeminiService {
  import opened Wrappers
  import opened Seqs
  import opened Types

  /** The preference fields, each contributing one sentence when non-empty. */
  datatype Field = MoodField | GenresField | LikeThisField

  /** The order in which sentences are pushed onto `promptParts`. */
  const FieldOrder: seq<Field> := [MoodField, GenresField, LikeThisField]

  function FieldText(prefs: Preferences, f: Field): string {
    match f
    case MoodField => prefs.mood
    case GenresField => prefs.genres
    case LikeThisField => prefs.likeThis
  }

  /** The template text before the field's value. */
  function SentenceHead(f: Field): string {
    match f
    case MoodField => "I'm in the mood for something "
    case GenresField => "I enjoy these genres: "
    case LikeThisField => "I recently enjoyed \""
  }

  /** The template text after the field's value. */
  function SentenceTail(f: Field): string {
    match f
    case MoodField => "."
    case GenresField => "."
    case LikeThisField => "\" and want something similar."
  }

  /** The sentence for field `f` with value `text`; the value sits verbatim between head and tail. */
  function Sentence(f: Field, text: string): (r: string)
    ensures |r| == |SentenceHead(f)| + |text| + |SentenceTail(f)|
    ensures r[..|SentenceHead(f)|] == SentenceHead(f)
    ensures r[|SentenceHead(f)|..|SentenceHead(f)| + |text|] == text
    ensures r[|r| - |SentenceTail(f)|..] == SentenceTail(f)
  {
    SentenceHead(f) + text + SentenceTail(f)
  }

  /** Sentences of different fields never coincide: their third characters differ. */
  lemma SentencesOfDifferentFieldsDiffer(f: Field, g: Field, a: string, b: string)
    requires f != g
    ensures Sentence(f, a) != Sentence(g, b)
  {
    HeadMark(f);
    HeadMark(g);
    var sf, sg := Sentence(f, a), Sentence(g, b);
    assert sf[..|SentenceHead(f)|][2] == sf[2];
    assert sg[..|SentenceHead(g)|][2] == sg[2];
  }

  /** The third character of each template head, which tells the templates apart. */
  function Mark(f: Field): char {
    match f
    case MoodField => 'm'
    case GenresField => 'e'
    case LikeThisField => 'r'
  }

  lemma HeadMark(f: Field)
    ensures |SentenceHead(f)| > 2 && SentenceHead(f)[2] == Mark(f)
  {
  }

  /** A field's sentence determines the field's text. */
  lemma SentenceDeterminesText(f: Field, a: string, b: string)
    requires Sentence(f, a) == Sentence(f, b)
    ensures a == b
  {
    assert |a| == |b|;
    assert a == Sentence(f, a)[|SentenceHead(f)|..|SentenceHead(f)| + |a|];
  }

  function NonEmptyIn(prefs: Preferences): Field -> bool {
    (f: Field) => FieldText(prefs, f) != ""
  }

  lemma EveryFieldOrdered()
    ensures forall f :: f in FieldOrder
  {
    forall f ensures f in FieldOrder {
      match f
      case MoodField => assert FieldOrder[0] == f;
      case GenresField => assert FieldOrder[1] == f;
      case LikeThisField => assert FieldOrder[2] == f;
    }
  }

  /** The fields that contribute a sentence, in mood, genres, likeThis order. */
  function PresentFields(prefs: Preferences): (fs: seq<Field>)
    ensures forall f :: f in fs <==> FieldText(prefs, f) != ""
  {
    EveryFieldOrdered();
    Keep(FieldOrder, NonEmptyIn(prefs))
  }

  /** The sentences of fields `fs`, in the order of `fs`. */
  function SentencesFor(prefs: Preferences, fs: seq<Field>): (parts: seq<string>)
    ensures |parts| == |fs|
    ensures forall i :: 0 <= i < |fs| ==> parts[i] == Sentence(fs[i], FieldText(prefs, fs[i]))
  {
    if fs == [] then [] else [Sentence(fs[0], FieldText(prefs, fs[0]))] + SentencesFor(prefs, fs[1..])
  }

  /** `promptParts` as a value: one sentence per present field, in field order. */
  function PromptParts(prefs: Preferences): (parts: seq<string>)
    ensures |parts| == |PresentFields(prefs)|
    ensures forall i :: 0 <= i < |parts| ==>
      parts[i] == Sentence(PresentFields(prefs)[i], FieldText(prefs, PresentFields(prefs)[i]))
  {
    SentencesFor(prefs, PresentFields(prefs))
  }

  /** Building `promptParts` by conditional pushes yields the sentences of the present fields. */
  method BuildPromptParts(prefs: Preferences) returns (parts: seq<string>)
    ensures parts == PromptParts(prefs)
  {
    ghost var fs: seq<Field> := [];
    parts := [];
    if prefs.mood != "" {
      SentencesForAppend(prefs, fs, MoodField);
      parts := parts + [Sentence(MoodField, prefs.mood)];
      fs := fs + [MoodField];
    }
    ghost var fs1 := fs;
    if prefs.genres != "" {
      SentencesForAppend(prefs, fs, GenresField);
      parts := parts + [Sentence(GenresField, prefs.genres)];
      fs := fs + [GenresField];
    }
    ghost var fs2 := fs;
    if prefs.likeThis != "" {
      SentencesForAppend(prefs, fs, LikeThisField);
      parts := parts + [Sentence(LikeThisField, prefs.likeThis)];
      fs := fs + [LikeThisField];
    }
    assert fs1 == Only(prefs.mood != "", MoodField);
    assert fs2 == fs1 + Only(prefs.genres != "", GenresField);
    assert fs == fs2 + Only(prefs.likeThis != "", LikeThisField);
    PresentFieldsSpelledOut(prefs);
    ConcatAssoc(Only(prefs.mood != "", MoodField), Only(prefs.genres != "", GenresField), Only(prefs.likeThis != "", LikeThisField));
  }

  lemma SentencesForAppend(prefs: Preferences, fs: seq<Field>, f: Field)
    ensures SentencesFor(prefs, fs + [f]) == SentencesFor(prefs, fs) + [Sentence(f, FieldText(prefs, f))]
  {
    var l, r := SentencesFor(prefs, fs + [f]), SentencesFor(prefs, fs) + [Sentence(f, FieldText(prefs, f))];
    assert |l| == |r|;
    forall i | 0 <= i < |l| ensures l[i] == r[i] {
      assert (fs + [f])[i] == if i < |fs| then fs[i] else f;
    }
  }

  function Only(b: bool, f: Field): seq<Field> {
    if b then [f] else []
  }

  lemma PresentFieldsSpelledOut(prefs: Preferences)
    ensures PresentFields(prefs)
      == Only(prefs.mood != "", MoodField) + (Only(prefs.genres != "", GenresField) + Only(prefs.likeThis != "", LikeThisField))
  {
    var p := NonEmptyIn(prefs);
    assert [LikeThisField] + [] == [LikeThisField];
    assert [GenresField] + [LikeThisField] == [GenresField, LikeThisField];
    assert [MoodField] + [GenresField, LikeThisField] == FieldOrder;
    assert p(MoodField) == (prefs.mood != "") && p(GenresField) == (prefs.genres != "");
    assert p(LikeThisField) == (prefs.likeThis != "");
    KeepCons(LikeThisField, [], p);
    KeepCons(GenresField, [LikeThisField], p);
    KeepCons(MoodField, [GenresField, LikeThisField], p);
  }

  /** The prompt holds a field's sentence exactly when that field is non-empty. */
  lemma SentenceIffFieldNonEmpty(prefs: Preferences, f: Field)
    ensures Sentence(f, FieldText(prefs, f)) in PromptParts(prefs) <==> FieldText(prefs, f) != ""
  {
    if FieldText(prefs, f) != "" {
      NonEmptyFieldHasSentence(prefs, f);
    }
    if Sentence(f, FieldText(prefs, f)) in PromptParts(prefs) {
      SentenceComesFromField(prefs, f);
    }
  }

  lemma NonEmptyFieldHasSentence(prefs: Preferences, f: Field)
    requires FieldText(prefs, f) != ""
    ensures Sentence(f, FieldText(prefs, f)) in PromptParts(prefs)
  {
    var fs := PresentFields(prefs);
    var parts := SentencesFor(prefs, fs);
    assert f in fs;
    var i := IndexOf(fs, f);
    assert parts[i] == Sentence(fs[i], FieldText(prefs, fs[i]));
  }

  lemma SentenceComesFromField(prefs: Preferences, f: Field)
    requires Sentence(f, FieldText(prefs, f)) in PromptParts(prefs)
    ensures FieldText(prefs, f) != ""
  {
    var fs := PresentFields(prefs);
    var parts := SentencesFor(prefs, fs);
    var i :| 0 <= i < |parts| && parts[i] == Sentence(f, FieldText(prefs, f));
    var g := fs[i];
    assert parts[i] == Sentence(g, FieldText(prefs, g));
    if g != f {
      SentencesOfDifferentFieldsDiffer(g, f, FieldText(prefs, g), FieldText(prefs, f));
    }
    assert g in fs;
  }

  /** Sentences follow the field order mood, genres, likeThis, without repetition. */
  lemma SentencesInFieldOrder(prefs: Preferences)
    ensures SubsequenceOf(PresentFields(prefs), FieldOrder)
    ensures Distinct(PresentFields(prefs))
  {
    KeepIsSubsequence(FieldOrder, NonEmptyIn(prefs));
    FieldOrderDistinct();
    SubsequenceDistinct(PresentFields(prefs), FieldOrder);
  }

  lemma FieldOrderDistinct()
    ensures Distinct(FieldOrder)
  {
    forall i, j | 0 <= i < j < |FieldOrder| ensures FieldOrder[i] != FieldOrder[j] {
      if i == 0 {
        assert FieldOrder[i].MoodField? && !FieldOrder[j].MoodField?;
      } else {
        assert FieldOrder[i].GenresField? && FieldOrder[j].LikeThisField?;
      }
    }
  }

  /** Where part `i` starts in the joined text: every earlier part, each followed by `sep`. */
  function Offset(parts: seq<string>, sep: string, i: nat): nat
    requires i <= |parts|
  {
    if i == 0 then 0 else Offset(parts, sep, i - 1) + |parts[i - 1]| + |sep|
  }

  /** Dropping the first part moves every later offset back by that part and one separator. */
  lemma {:induction false} OffsetStep(parts: seq<string>, sep: string, i: nat)
    requires 1 <= i <= |parts|
    ensures Offset(parts, sep, i) == |parts[0]| + |sep| + Offset(parts[1..], sep, i - 1)
  {
    if i > 1 {
      OffsetStep(parts, sep, i - 1);
      assert parts[1..][i - 2] == parts[i - 1];
    }
  }

  /** `r` is `parts` laid out at their offsets, `sep` between neighbours, and nothing after the last. */
  ghost predicate LaidOut(parts: seq<string>, sep: string, r: string) {
    && |parts| > 0
    && |r| == Offset(parts, sep, |parts| - 1) + |parts[|parts| - 1]|
    && (forall i :: 0 <= i < |parts| ==> PartAt(parts, sep, r, i))
    && (forall i :: 0 < i < |parts| ==> SepBefore(parts, sep, r, i))
  }

  /** Part `i` sits at its offset in `r`. */
  ghost predicate PartAt(parts: seq<string>, sep: string, r: string, i: nat)
    requires i < |parts|
  {
    Offset(parts, sep, i) + |parts[i]| <= |r|
    && r[Offset(parts, sep, i)..Offset(parts, sep, i) + |parts[i]|] == parts[i]
  }

  /** Exactly `sep` fills the gap in `r` between part `i - 1` and part `i`. */
  ghost predicate SepBefore(parts: seq<string>, sep: string, r: string, i: nat)
    requires 0 < i < |parts|
  {
    Offset(parts, sep, i) <= |r|
    && r[Offset(parts, sep, i) - |sep|..Offset(parts, sep, i)] == sep
  }

  lemma ShiftSlice(r: string, h: nat, rest: string, lo: nat, hi: nat)
    requires h <= |r| && r[h..] == rest && lo <= hi <= |rest|
    ensures r[h + lo..h + hi] == rest[lo..hi]
  {
    forall k | 0 <= k < hi - lo
      ensures r[h + lo..h + hi][k] == rest[lo..hi][k]
    {
      assert r[h + lo..h + hi][k] == r[h + lo + k] == r[h..][lo + k];
    }
  }

  /** Putting the first part and a separator in front of the laid-out tail lays out the whole. */
  lemma JoinStep(parts: seq<string>, sep: string, rest: string)
    requires |parts| >= 2 && LaidOut(parts[1..], sep, rest)
    ensures LaidOut(parts, sep, parts[0] + sep + rest)
  {
    var r, tail, h := parts[0] + sep + rest, parts[1..], |parts[0]| + |sep|;
    assert r[h..] == rest;
    OffsetStep(parts, sep, |parts| - 1);
    forall i | 0 <= i < |parts|
      ensures PartAt(parts, sep, r, i)
    {
      if i == 0 {
        assert r[..|parts[0]|] == parts[0];
      } else {
        OffsetStep(parts, sep, i);
        assert PartAt(tail, sep, rest, i - 1);
        ShiftSlice(r, h, rest, Offset(tail, sep, i - 1), Offset(tail, sep, i - 1) + |tail[i - 1]|);
      }
    }
    forall i | 0 < i < |parts|
      ensures SepBefore(parts, sep, r, i)
    {
      OffsetStep(parts, sep, i);
      if i == 1 {
        assert r[|parts[0]|..h] == sep;
      } else {
        assert SepBefore(tail, sep, rest, i - 1);
        ShiftSlice(r, h, rest, Offset(tail, sep, i - 1) - |sep|, Offset(tail, sep, i - 1));
      }
    }
  }

  /** The summed length of the parts. */
  function TotalLength(parts: seq<string>): nat {
    if |parts| == 0 then 0 else |parts[0]| + TotalLength(parts[1..])
  }

  /**
   * `parts.join(sep)`: the parts with one separator between neighbours, so the length
   * is the parts' total plus one separator fewer than there are parts; `JoinLayout`
   * places every part and every separator.
   */
  function Join(parts: seq<string>, sep: string): (r: string)
    ensures |parts| == 0 ==> r == ""
    ensures |parts| > 0 ==> |r| == TotalLength(parts) + (|parts| - 1) * |sep|
    ensures |parts| > 0 ==> |parts[0]| <= |r| && r[..|parts[0]|] == parts[0]
  {
    if |parts| == 0 then ""
    else if |parts| == 1 then parts[0]
    else
      var rest := Join(parts[1..], sep);
      assert (|parts| - 2) * |sep| + |sep| == (|parts| - 1) * |sep|;
      parts[0] + sep + rest
  }

  /**
   * `Join` puts part `i` at `Offset(parts, sep, i)`, exactly `sep` in each gap between
   * neighbours, and nothing after the last part.
   */
  lemma {:induction false} JoinLayout(parts: seq<string>, sep: string)
    requires |parts| > 0
    ensures LaidOut(parts, sep, Join(parts, sep))
  {
    if |parts| == 1 {
      assert PartAt(parts, sep, parts[0], 0) by {
        assert parts[0][0..|parts[0]|] == parts[0];
      }
    } else {
      JoinLayout(parts[1..], sep);
      JoinStep(parts, sep, Join(parts[1..], sep));
    }
  }

  /** Every part occurs, whole, inside the joined text. */
  lemma {:induction false} JoinContainsPart(parts: seq<string>, sep: string, i: int)
    requires 0 <= i < |parts|
    ensures exists before, after :: Join(parts, sep) == before + parts[i] + after
  {
    if |parts| == 1 {
      assert Join(parts, sep) == "" + parts[0] + "";
    } else if i == 0 {
      assert Join(parts, sep) == "" + parts[0] + (sep + Join(parts[1..], sep));
    } else {
      JoinContainsPart(parts[1..], sep, i - 1);
      var before, after :| Join(parts[1..], sep) == before + parts[1..][i - 1] + after;
      assert Join(parts, sep) == (parts[0] + sep + before) + parts[i] + after;
    }
  }

  /** The preference line of the prompt: `promptParts.join(' ')`. */
  function PreferenceLine(prefs: Preferences): (r: string)
    ensures PresentFields(prefs) == [] ==> r == ""
    ensures PresentFields(prefs) != [] ==>
      var f := PresentFields(prefs)[0];
      var first := Sentence(f, FieldText(prefs, f));
      |first| <= |r| && r[..|first|] == first
  {
    Join(PromptParts(prefs), " ")
  }

  /**
   * The preference line is the prompt parts joined by single spaces: the sentence of the
   * `i`-th present field sits at `Offset(parts, " ", i)`, one ' ' separates neighbours, and
   * nothing follows the last sentence.
   */
  lemma PreferenceLineLayout(prefs: Preferences)
    requires PresentFields(prefs) != []
    ensures LaidOut(PromptParts(prefs), " ", PreferenceLine(prefs))
  {
    JoinLayout(PromptParts(prefs), " ");
  }

  /** With all three fields filled the line is the mood, genres and likeThis sentences, space-separated. */
  lemma PreferenceLineAllFields(prefs: Preferences)
    requires prefs.mood != "" && prefs.genres != "" && prefs.likeThis != ""
    ensures PreferenceLine(prefs)
      == Sentence(MoodField, prefs.mood) + " " + Sentence(GenresField, prefs.genres)
         + " " + Sentence(LikeThisField, prefs.likeThis)
  {
    var s1, s2, s3 := Sentence(MoodField, prefs.mood), Sentence(GenresField, prefs.genres),
      Sentence(LikeThisField, prefs.likeThis);
    PresentFieldsSpelledOut(prefs);
    assert PresentFields(prefs) == [MoodField, GenresField, LikeThisField];
    var parts := PromptParts(prefs);
    assert parts == [s1, s2, s3];
    JoinThree(s1, s2, s3, " ");
  }

  lemma JoinThree(a: string, b: string, c: string, sep: string)
    ensures Join([a, b, c], sep) == a + sep + b + sep + c
  {
    assert [a, b, c][1..] == [b, c] && [b, c][1..] == [c];
    assert Join([b, c], sep) == b + sep + c;
    assert a + sep + (b + sep + c) == a + sep + b + sep + c;
  }

  /** Every non-empty field's sentence appears in the preference line. */
  lemma PreferenceLineHasEachSentence(prefs: Preferences, f: Field)
    requires FieldText(prefs, f) != ""
    ensures exists before, after :: PreferenceLine(prefs) == before + Sentence(f, FieldText(prefs, f)) + after
  {
    SentenceIffFieldNonEmpty(prefs, f);
    var parts := PromptParts(prefs);
    var i :| 0 <= i < |parts| && parts[i] == Sentence(f, FieldText(prefs, f));
    JoinContainsPart(parts, " ", i);
  }

  /** With all three fields empty the preference line is empty. */
  lemma NoPreferencesNoLine(prefs: Preferences)
    requires prefs.mood == "" && prefs.genres == "" && prefs.likeThis == ""
    ensures PreferenceLine(prefs) == ""
  {
    PresentFieldsSpelledOut(prefs);
  }

  /** A preference line is empty only when all three fields are. */
  lemma SomePreferenceSomeLine(prefs: Preferences)
    requires prefs.mood != "" || prefs.genres != "" || prefs.likeThis != ""
    ensures PreferenceLine(prefs) != ""
  {
    var f := if prefs.mood != "" then MoodField else if prefs.genres != "" then GenresField else LikeThisField;
    PreferenceLineHasEachSentence(prefs, f);
  }

  /** Surprise-me sends mood 'surprise-me' and nothing else: a single mood sentence. */
  lemma SurprisePreferenceLine()
    ensures PreferenceLine(Preferences("surprise-me", "", ""))
              == "I'm in the mood for something surprise-me."
  {
    SurpriseHasOnlyMoodSentence();
    SurpriseSentenceText();
  }

  lemma SurpriseSentenceText()
    ensures Sentence(MoodField, "surprise-me") == "I'm in the mood for something surprise-me."
  {
    var a, b := Sentence(MoodField, "surprise-me"), "I'm in the mood for something surprise-me.";
    assert |a| == |b|;
    forall i | 0 <= i < |a| ensures a[i] == b[i] {
    }
  }

  lemma SurpriseHasOnlyMoodSentence()
    ensures PromptParts(Preferences("surprise-me", "", "")) == [Sentence(MoodField, "surprise-me")]
  {
    var prefs := Preferences("surprise-me", "", "");
    PresentFieldsSpelledOut(prefs);
    assert PresentFields(prefs) == [MoodField];
  }

  const PromptHead: string :=
    "\n    Act as an expert Entertainment Concierge. Please recommend 9 high-quality and diverse entertainment items (a mix of movies, TV shows, books, and video games) based on the following user preferences:\n    "
  const PromptTail: string :=
    "\n    \n    For each recommendation, provide all the requested information in the JSON schema. It is critically important that you find and include a valid, publicly accessible URL for its official poster or cover art in the 'poster_url' field. Do not use placeholder images. Ensure the personalization reason is compelling and directly relates to the user's input. The rating should be a realistic reflection of general critic/user consensus.\n  "

  /** The full prompt sent to the model. */
  function Prompt(prefs: Preferences): (p: string)
    ensures |p| == |PromptHead| + |PreferenceLine(prefs)| + |PromptTail|
    ensures p[..|PromptHead|] == PromptHead
    ensures p[|PromptHead|..|p| - |PromptTail|] == PreferenceLine(prefs)
    ensures p[|p| - |PromptTail|..] == PromptTail
  {
    ThreeParts(PromptHead, PreferenceLine(prefs), PromptTail);
    PromptHead + PreferenceLine(prefs) + PromptTail
  }

  /** The parsed reply text: an array (taken as Recommendations) or any other JSON value. */
  datatype Json = JsonArray(items: seq<Recommendation>) | JsonOther

  /** What the call yields: a parsed reply, or a failure of the call or of `JSON.parse`. */
  datatype Reply = Replied(body: Json) | CallFailed

  /** What the client throws: an `Error` with its message, or some other value. */
  datatype Thrown = ErrorObject(message: string) | OtherValue

  const FailureMessage: string :=
    "Failed to get recommendations from the AI. The model may be overloaded or the request was invalid. Please try again later."

  /** The shape check and error normalisation of `getEntertainmentRecommendations`. */
  function Interpret(reply: Reply): (r: Result<seq<Recommendation>, Thrown>)
    ensures r.Success? <==> reply.Replied? && reply.body.JsonArray?
    ensures r.Success? ==> r.value == reply.body.items
    ensures r.Failure? ==> r.error == ErrorObject(FailureMessage)
  {
    match reply
    case CallFailed => Failure(ErrorObject(FailureMessage))
    case Replied(JsonOther) => Failure(ErrorObject(FailureMessage))
    case Replied(JsonArray(items)) => Success(items)
  }

  /** `getEntertainmentRecommendations(mood, genres, likeThis)` with the model call `ai`. */
  function GetEntertainmentRecommendations(prefs: Preferences, ai: string -> Reply): (r: Result<seq<Recommendation>, Thrown>)
    ensures r.Success? <==> ai(Prompt(prefs)).Replied? && ai(Prompt(prefs)).body.JsonArray?
    ensures r.Success? ==> r.value == ai(Prompt(prefs)).body.items
    ensures r.Failure? ==> r.error == ErrorObject(FailureMessage)
  {
    Interpret(ai(Prompt(prefs)))
  }

  /** A non-array reply and a failed call are reported identically. */
  lemma FailuresIndistinguishable(items: Json)
    requires items.JsonOther?
    ensures Interpret(Replied(items)) == Interpret(CallFailed)
  {
  }
}
