/** `extract_transcript`: Amazon Transcribe result items to speaker-labelled
    text. The items are given already parsed; `json.loads` and the lookup of
    `results.items` and `alternatives[0].content` are not part of this module. */
module Transcript {
  import opened Wrappers
  import opened Text

  /** One entry of `results.items`: its `type` field (absent is `None`), the
      `content` of its first alternative, and its `speaker_label` (absent or
      JSON null is `None`). */
  datatype Item = Item(kind: Option<string>, content: string, speakerLabel: Option<string>)

  predicate IsPunctuation(item: Item)
  {
    item.kind == Some("punctuation")
  }

  /** The text written when the speaker changes. */
  function Header(speaker: string): string
  {
    "\n" + speaker + ": "
  }

  /** What one item adds to text `t`: a punctuation item first strips the
      trailing whitespace of `t`; every item then contributes its content and
      one space. */
  function Attach(t: string, item: Item): string
  {
    (if IsPunctuation(item) then RStrip(t) else t) + item.content + " "
  }

  /** The loop's two variables: `output_text` and `current_speaker`. */
  datatype Acc = Acc(text: string, speaker: Option<string>)

  /** One iteration of the loop. */
  function Step(acc: Acc, item: Item): Acc
  {
    if item.speakerLabel.Some? && item.speakerLabel != acc.speaker then
      Acc(Attach(acc.text + Header(item.speakerLabel.value), item), item.speakerLabel)
    else
      Acc(Attach(acc.text, item), acc.speaker)
  }

  /** Attaching ends the text in the item's content and one space; before
      that comes a prefix of the old text, and only whitespace was dropped
      from it, none at all for a non-punctuation item. */
  lemma AttachShape(t: string, item: Item)
    ensures EndsWith(Attach(t, item), item.content + " ")
    ensures var n := |Attach(t, item)| - |item.content| - 1;
      0 <= n <= |t| && Attach(t, item)[..n] == t[..n] && AllWhitespace(t[n..])
    ensures !IsPunctuation(item) ==> Attach(t, item) == t + item.content + " "
  {
    var kept := if IsPunctuation(item) then RStrip(t) else t;
    var r := kept + item.content + " ";
    assert r[..|kept|] == kept;
    assert r[|kept|..] == item.content + " ";
    assert t[..|kept|] == kept;
  }

  /** After one iteration the current speaker is the item's label when it
      has one and is unchanged otherwise; the text ends in the item's content
      and one space, and a non-punctuation item only extends it. */
  lemma StepShape(acc: Acc, item: Item)
    ensures Step(acc, item).speaker == if item.speakerLabel.Some? then item.speakerLabel else acc.speaker
    ensures EndsWith(Step(acc, item).text, item.content + " ")
    ensures !IsPunctuation(item) ==> acc.text <= Step(acc, item).text
  {
    var t := if item.speakerLabel.Some? && item.speakerLabel != acc.speaker
             then acc.text + Header(item.speakerLabel.value) else acc.text;
    AttachShape(t, item);
    assert acc.text <= t;
  }

  /** The loop run over all of `items`, from the empty text and no speaker. */
  function Run(items: seq<Item>): Acc
  {
    if items == [] then Acc("", None) else Step(Run(items[..|items| - 1]), items[|items| - 1])
  }

  /** The text `extract_transcript` returns for `items`. */
  function ExtractTranscript(items: seq<Item>): string
  {
    Run(items).text
  }

  /** The loop of `extract_transcript`, updating the accumulator in place. */
  method Extract(items: seq<Item>) returns (outputText: string)
    ensures outputText == ExtractTranscript(items)
    ensures items == [] ==> outputText == ""
  {
    outputText := "";
    var currentSpeaker: Option<string> := None;
    var i := 0;
    while i < |items|
      invariant 0 <= i <= |items|
      invariant Acc(outputText, currentSpeaker) == Run(items[..i])
    {
      var item := items[i];
      ghost var before := Acc(outputText, currentSpeaker);
      var speakerLabel := item.speakerLabel;
      var content := item.content;
      if speakerLabel.Some? && speakerLabel != currentSpeaker {
        currentSpeaker := speakerLabel;
        outputText := outputText + "\n" + speakerLabel.value + ": ";
        assert outputText == before.text + Header(speakerLabel.value);
      }
      if IsPunctuation(item) {
        outputText := RStrip(outputText);
      }
      outputText := outputText + content + " ";
      assert Acc(outputText, currentSpeaker) == Step(before, item);
      assert items[..i + 1][..i] == items[..i];
      i := i + 1;
    }
    assert items[..i] == items;
  }

  // ---------------------------------------------------------------------
  // Reference definitions over the speaker labels alone

  /** The non-null speaker labels of `items`, in order. */
  function Labels(items: seq<Item>): (ls: seq<string>)
    ensures |ls| <= |items|
  {
    if items == [] then []
    else
      var last := items[|items| - 1];
      Labels(items[..|items| - 1]) + (if last.speakerLabel.Some? then [last.speakerLabel.value] else [])
  }

  /** The last non-null speaker label of `items`, if any. */
  function LastLabel(items: seq<Item>): Option<string>
  {
    var ls := Labels(items);
    if ls == [] then None else Some(ls[|ls| - 1])
  }

  /** The number of maximal runs of equal, adjacent labels in `ls`: the number
      of times a label differs from the one before it, counting the first. */
  function Runs(ls: seq<string>): nat
  {
    if ls == [] then 0
    else Runs(ls[..|ls| - 1]) + (if |ls| == 1 || ls[|ls| - 1] != ls[|ls| - 2] then 1 else 0)
  }

  /** Neither contents nor labels contain a newline. */
  predicate NoNewlines(items: seq<Item>)
  {
    forall i :: 0 <= i < |items| ==>
      '\n' !in items[i].content && (items[i].speakerLabel.Some? ==> '\n' !in items[i].speakerLabel.value)
  }

  /** The contents of `items`, each followed by one space. */
  function Join(items: seq<Item>): string
  {
    if items == [] then "" else Join(items[..|items| - 1]) + items[|items| - 1].content + " "
  }

  // ---------------------------------------------------------------------
  // Properties of the extraction

  /** `current_speaker` is always the last non-null label seen so far. */
  lemma {:induction false} CurrentSpeakerIsLastLabel(items: seq<Item>)
    ensures Run(items).speaker == LastLabel(items)
  {
    if items != [] {
      var p := items[..|items| - 1];
      CurrentSpeakerIsLastLabel(p);
      LastLabelSnoc(items);
      assert Run(items) == Step(Run(p), items[|items| - 1]);
    }
  }

  /** The last label after one more item: its own label, or the one before. */
  lemma LastLabelSnoc(items: seq<Item>)
    requires items != []
    ensures LastLabel(items)
         == if items[|items| - 1].speakerLabel.Some? then items[|items| - 1].speakerLabel else LastLabel(items[..|items| - 1])
  {
    var p, last := items[..|items| - 1], items[|items| - 1];
    assert Labels(items) == Labels(p) + (if last.speakerLabel.Some? then [last.speakerLabel.value] else []);
  }

  /** A non-null label that differs from the last label seen emits the header
      for that label right before the item is attached. */
  lemma HeaderOnLabelChange(items: seq<Item>, i: nat)
    requires i < |items|
    requires items[i].speakerLabel.Some? && items[i].speakerLabel != LastLabel(items[..i])
    ensures ExtractTranscript(items[..i + 1])
         == Attach(ExtractTranscript(items[..i]) + Header(items[i].speakerLabel.value), items[i])
  {
    assert items[..i + 1][..i] == items[..i];
    CurrentSpeakerIsLastLabel(items[..i]);
  }

  /** A word that changes the speaker comes right after its header. */
  lemma HeaderBeforeWord(items: seq<Item>, i: nat)
    requires i < |items| && !IsPunctuation(items[i])
    requires items[i].speakerLabel.Some? && items[i].speakerLabel != LastLabel(items[..i])
    ensures ExtractTranscript(items[..i + 1])
         == ExtractTranscript(items[..i]) + "\n" + items[i].speakerLabel.value + ": " + items[i].content + " "
  {
    HeaderOnLabelChange(items, i);
  }

  /** A punctuation item that changes the speaker strips the space of its
      header: the header is left as "\n" + label + ":". */
  lemma HeaderBeforePunctuation(items: seq<Item>, i: nat)
    requires i < |items| && IsPunctuation(items[i])
    requires items[i].speakerLabel.Some? && items[i].speakerLabel != LastLabel(items[..i])
    ensures ExtractTranscript(items[..i + 1])
         == ExtractTranscript(items[..i]) + "\n" + items[i].speakerLabel.value + ":" + items[i].content + " "
  {
    HeaderOnLabelChange(items, i);
    StripHeader(ExtractTranscript(items[..i]), items[i].speakerLabel.value);
  }

  /** Stripping right after a header removes only its final space. */
  lemma StripHeader(t: string, speaker: string)
    ensures RStrip(t + Header(speaker)) == t + "\n" + speaker + ":"
  {
    var a := t + "\n" + speaker + ":";
    assert t + Header(speaker) == a + " ";
    assert a[|a| - 1] == ':';
    assert !IsWhitespace(':');
    assert AllWhitespace(" ") by { assert IsWhitespace(' '); }
    RStripConcat(a, " ");
  }

  /** A null label, or the label already current, emits no header. */
  lemma NoHeaderWithoutLabelChange(items: seq<Item>, i: nat)
    requires i < |items|
    requires items[i].speakerLabel.None? || items[i].speakerLabel == LastLabel(items[..i])
    ensures ExtractTranscript(items[..i + 1]) == Attach(ExtractTranscript(items[..i]), items[i])
  {
    assert items[..i + 1][..i] == items[..i];
    CurrentSpeakerIsLastLabel(items[..i]);
  }

  /** The next item carrying the same label as the one before never re-emits
      the header. */
  lemma SameLabelNoHeader(items: seq<Item>, i: nat)
    requires 0 < i < |items|
    requires items[i - 1].speakerLabel.Some? && items[i].speakerLabel == items[i - 1].speakerLabel
    ensures ExtractTranscript(items[..i + 1]) == Attach(ExtractTranscript(items[..i]), items[i])
  {
    assert items[..i][..i - 1] == items[..i - 1];
    assert LastLabel(items[..i]) == items[i - 1].speakerLabel;
    NoHeaderWithoutLabelChange(items, i);
  }

  /** `t` ends with content `c` and one space, and the character before `c`,
      if there is one, is not whitespace. */
  predicate AttachedWithoutSpace(t: string, c: string)
  {
    var n := |t| - |c| - 1;
    0 <= n && t[n..] == c + " " && (n == 0 || !IsWhitespace(t[n - 1]))
  }

  /** The text a punctuation item attaches to never ends in whitespace: the
      character right before its content is not whitespace, unless nothing at
      all precedes the content. */
  lemma PunctuationFollowsWord(items: seq<Item>, i: nat)
    requires i < |items| && IsPunctuation(items[i])
    ensures AttachedWithoutSpace(ExtractTranscript(items[..i + 1]), items[i].content)
  {
    PrefixStep(items, i);
    var acc := Run(items[..i]);
    var p := RStrip(Headed(acc, items[i]));
    assert ExtractTranscript(items[..i + 1]) == p + items[i].content + " ";
    AfterNonWhitespace(p, items[i].content);
  }

  lemma AfterNonWhitespace(p: string, c: string)
    requires p == "" || !IsWhitespace(p[|p| - 1])
    ensures AttachedWithoutSpace(p + c + " ", c)
  {
    var t := p + c + " ";
    assert |t| - |c| - 1 == |p|;
    assert t[|p|..] == c + " ";
    assert |p| > 0 ==> t[|p| - 1] == p[|p| - 1];
  }

  /** After every item the text ends with that item's content and one space. */
  lemma EndsWithLastContent(items: seq<Item>)
    requires items != []
    ensures EndsWith(ExtractTranscript(items), items[|items| - 1].content + " ")
  {
  }

  // ---------------------------------------------------------------------
  // Newlines come from headers only

  /** The whitespace that `RStrip` would remove from `t`. */
  function Trailing(t: string): string
  {
    t[|RStrip(t)|..]
  }

  lemma TrailingConcat(a: string, b: string)
    requires '\n' !in Trailing(a) && '\n' !in b
    ensures '\n' !in Trailing(a + b)
  {
    RStripConcat(a, b);
    var s := a + b;
    var k := |RStrip(s)|;
    forall j | k <= j < |s| ensures s[j] != '\n' {
      if j < |a| {
        assert k == |RStrip(a)|;
        assert s[j] == Trailing(a)[j - k];
      } else {
        assert s[j] == b[j - |a|];
      }
    }
    assert forall j :: 0 <= j < |Trailing(s)| ==> Trailing(s)[j] == s[k + j];
  }

  /** A header's trailing whitespace is its final space: its `:` stays. */
  lemma HeaderTrailing(t: string, speaker: string)
    ensures Trailing(t + Header(speaker)) == " "
  {
    StripHeader(t, speaker);
    assert t + Header(speaker) == (t + "\n" + speaker + ":") + " ";
  }

  lemma StrippedTrailing(t: string)
    ensures Trailing(RStrip(t)) == ""
  {
    assert RStrip(RStrip(t)) == RStrip(t);
  }

  /** What a step appends before the content: the text, with the header if
      the label changes. */
  function Headed(acc: Acc, item: Item): string
  {
    if item.speakerLabel.Some? && item.speakerLabel != acc.speaker
    then acc.text + Header(item.speakerLabel.value) else acc.text
  }

  lemma LastStep(items: seq<Item>)
    requires items != []
    ensures ExtractTranscript(items)
         == Attach(Headed(Run(items[..|items| - 1]), items[|items| - 1]), items[|items| - 1])
  {
  }

  /** One step keeps newlines out of the trailing whitespace. */
  lemma TrailingStep(acc: Acc, item: Item)
    requires '\n' !in Trailing(acc.text) && '\n' !in item.content
    ensures '\n' !in Trailing(Attach(Headed(acc, item), item))
  {
    var x := Headed(acc, item);
    if item.speakerLabel.Some? && item.speakerLabel != acc.speaker {
      HeaderTrailing(acc.text, item.speakerLabel.value);
    }
    var y := if IsPunctuation(item) then RStrip(x) else x;
    if IsPunctuation(item) {
      StrippedTrailing(x);
    }
    assert Attach(x, item) == y + (item.content + " ");
    TrailingConcat(y, item.content + " ");
  }

  /** Every newline is followed, later on, by the `:` of its header, so no
      `RStrip` ever removes one. */
  lemma {:induction false} NoNewlineInTrailing(items: seq<Item>)
    requires NoNewlines(items)
    ensures '\n' !in Trailing(ExtractTranscript(items))
  {
    if items != [] {
      var p := items[..|items| - 1];
      assert NoNewlines(p);
      NoNewlineInTrailing(p);
      LastStep(items);
      TrailingStep(Run(p), items[|items| - 1]);
    }
  }

  lemma RStripKeepsNewlines(t: string)
    requires '\n' !in Trailing(t)
    ensures Occurrences(RStrip(t), '\n') == Occurrences(t, '\n')
  {
    assert t == RStrip(t) + Trailing(t);
    OccurrencesConcat(RStrip(t), Trailing(t), '\n');
  }

  lemma HeaderNewlines(t: string, speaker: string)
    requires '\n' !in speaker
    ensures Occurrences(t + Header(speaker), '\n') == Occurrences(t, '\n') + 1
  {
    assert t + Header(speaker) == t + ("\n" + speaker) + ": ";
    OccurrencesConcat(t + ("\n" + speaker), ": ", '\n');
    OccurrencesConcat(t, "\n" + speaker, '\n');
    OccurrencesConcat("\n", speaker, '\n');
  }

  /** Attaching an item whose content has no newline removes none either. */
  lemma AttachNewlines(x: string, item: Item)
    requires '\n' !in Trailing(x) && '\n' !in item.content
    ensures Occurrences(Attach(x, item), '\n') == Occurrences(x, '\n')
  {
    var y := if IsPunctuation(item) then RStrip(x) else x;
    if IsPunctuation(item) {
      RStripKeepsNewlines(x);
    }
    assert Attach(x, item) == y + (item.content + " ");
    OccurrencesConcat(y, item.content + " ", '\n');
    OccurrencesConcat(item.content, " ", '\n');
  }

  /** One step adds a newline exactly when it writes a header. */
  lemma NewlineStep(acc: Acc, item: Item)
    requires '\n' !in Trailing(acc.text) && '\n' !in item.content
    requires item.speakerLabel.Some? ==> '\n' !in item.speakerLabel.value
    ensures Occurrences(Attach(Headed(acc, item), item), '\n')
         == Occurrences(acc.text, '\n')
            + (if item.speakerLabel.Some? && item.speakerLabel != acc.speaker then 1 else 0)
  {
    if item.speakerLabel.Some? && item.speakerLabel != acc.speaker {
      HeaderNewlines(acc.text, item.speakerLabel.value);
      HeaderTrailing(acc.text, item.speakerLabel.value);
    }
    AttachNewlines(Headed(acc, item), item);
  }

  lemma RunsSnoc(ls: seq<string>, l: string)
    ensures Runs(ls + [l]) == Runs(ls) + (if ls == [] || ls[|ls| - 1] != l then 1 else 0)
  {
    var ls' := ls + [l];
    assert ls'[..|ls|] == ls;
    assert ls'[|ls|] == l;
  }

  /** A label opens a new run exactly when it differs from the last label. */
  lemma RunsStep(items: seq<Item>)
    requires items != []
    ensures Runs(Labels(items))
         == Runs(Labels(items[..|items| - 1]))
            + (if items[|items| - 1].speakerLabel.Some? && items[|items| - 1].speakerLabel != LastLabel(items[..|items| - 1])
               then 1 else 0)
  {
    var p, item := items[..|items| - 1], items[|items| - 1];
    var ls := Labels(p);
    assert Labels(items) == ls + (if item.speakerLabel.Some? then [item.speakerLabel.value] else []);
    if item.speakerLabel.Some? {
      RunsSnoc(ls, item.speakerLabel.value);
    } else {
      assert ls + [] == ls;
    }
  }

  /** When neither contents nor labels contain a newline, the output holds
      exactly one newline per header, and there is one header per run of
      equal adjacent labels once the unlabelled items are skipped. */
  lemma {:induction false} NewlinesCountLabelRuns(items: seq<Item>)
    requires NoNewlines(items)
    ensures Occurrences(ExtractTranscript(items), '\n') == Runs(Labels(items))
  {
    if items != [] {
      var p, item := items[..|items| - 1], items[|items| - 1];
      assert NoNewlines(p);
      NewlinesCountLabelRuns(p);
      NoNewlineInTrailing(p);
      CurrentSpeakerIsLastLabel(p);
      LastStep(items);
      NewlineStep(Run(p), item);
      RunsStep(items);
    }
  }

  // ---------------------------------------------------------------------
  // Items without speaker labels

  /** The extraction with speaker labels ignored altogether. */
  function Flat(items: seq<Item>): string
  {
    if items == [] then "" else Attach(Flat(items[..|items| - 1]), items[|items| - 1])
  }

  /** Without any speaker label no header is ever written. */
  lemma {:induction false} UnlabelledIsFlat(items: seq<Item>)
    requires forall i :: 0 <= i < |items| ==> items[i].speakerLabel.None?
    ensures ExtractTranscript(items) == Flat(items)
  {
    if items != [] {
      UnlabelledIsFlat(items[..|items| - 1]);
    }
  }

  /** Without punctuation, the labels aside, the output is every content
      followed by one space, in order. */
  lemma {:induction false} FlatWithoutPunctuationIsJoin(items: seq<Item>)
    requires forall i :: 0 <= i < |items| ==> !IsPunctuation(items[i])
    ensures Flat(items) == Join(items)
  {
    if items != [] {
      FlatWithoutPunctuationIsJoin(items[..|items| - 1]);
    }
  }

  /** Without labels and contents free of newlines, the output has no newline. */
  lemma UnlabelledHasNoNewline(items: seq<Item>)
    requires forall i :: 0 <= i < |items| ==> items[i].speakerLabel.None? && '\n' !in items[i].content
    ensures '\n' !in ExtractTranscript(items)
  {
    NoLabels(items);
    NewlinesCountLabelRuns(items);
  }

  lemma {:induction false} NoLabels(items: seq<Item>)
    requires forall i :: 0 <= i < |items| ==> items[i].speakerLabel.None?
    ensures Labels(items) == []
  {
    if items != [] {
      NoLabels(items[..|items| - 1]);
    }
  }

  // ---------------------------------------------------------------------
  // The examples of the unit tests

  lemma EmptyItems()
    ensures ExtractTranscript([]) == ""
  {
  }

  lemma SingleUnlabelledWord()
    ensures ExtractTranscript([Item(Some("pronunciation"), "Hello", None)]) == "Hello "
  {
  }

  /** The input of the two-speaker unit test. */
  const TwoSpeakerItems: seq<Item> := [
    Item(Some("pronunciation"), "Hello", Some("SPEAKER_00")),
    Item(Some("pronunciation"), "thanks", Some("SPEAKER_00")),
    Item(Some("punctuation"), ".", None),
    Item(Some("pronunciation"), "How", Some("SPEAKER_01")),
    Item(Some("pronunciation"), "can", Some("SPEAKER_01")),
    Item(Some("punctuation"), "?", None)]

  lemma FirstSpeakerTurn()
    ensures Run(TwoSpeakerItems[..3]) == Acc(Header("SPEAKER_00") + "Hello thanks. ", Some("SPEAKER_00"))
  {
    var items, s0 := TwoSpeakerItems, "SPEAKER_00";
    assert items[..0] == [];
    NewSpeakerStep(items, 0, "", None, s0);
    assert "" + Header(s0) == Header(s0);
    WordStep(items, 1, Header(s0) + "Hello" + " ", Some(s0));
    PunctuationStep(items, 2, Header(s0) + "Hello" + " ", "thanks", Some(s0));
    Phrases();
    Joined(Header(s0), "Hello", "thanks", ".", "Hello thanks. ");
  }

  lemma SecondSpeakerTurn()
    ensures Run(TwoSpeakerItems[..5])
         == Acc(Header("SPEAKER_00") + "Hello thanks. " + Header("SPEAKER_01") + "How" + " " + "can" + " ", Some("SPEAKER_01"))
  {
    var items, s0, s1 := TwoSpeakerItems, "SPEAKER_00", "SPEAKER_01";
    var t := Header(s0) + "Hello thanks. ";
    FirstSpeakerTurn();
    DistinctSpeakers();
    NewSpeakerStep(items, 3, t, Some(s0), s1);
    WordStep(items, 4, t + Header(s1) + "How" + " ", Some(s1));
  }

  /** The output of the two-speaker unit test, which checks only that it
      contains "SPEAKER_00: Hello thanks." and "SPEAKER_01: How can?". */
  lemma TwoSpeakersWithPunctuation()
    ensures ExtractTranscript(TwoSpeakerItems)
         == Header("SPEAKER_00") + "Hello thanks. " + Header("SPEAKER_01") + "How can? "
  {
    var t := Header("SPEAKER_00") + "Hello thanks. " + Header("SPEAKER_01");
    SecondSpeakerTurn();
    PunctuationStep(TwoSpeakerItems, 5, t + "How" + " ", "can", Some("SPEAKER_01"));
    assert TwoSpeakerItems[..6] == TwoSpeakerItems;
    Phrases();
    Joined(t, "How", "can", "?", "How can? ");
  }

  /** Solver aid: the two labels of the example differ. The literal facts of
      an example are stated apart so the solver evaluates each one once. */
  lemma DistinctSpeakers()
    ensures "SPEAKER_01" != "SPEAKER_00"
  {
    assert "SPEAKER_01"[9] != "SPEAKER_00"[9];
  }

  /** Solver aid: regroups a concatenation around a phrase. */
  lemma Joined(t: string, w1: string, w2: string, p: string, phrase: string)
    requires w1 + " " + w2 + p + " " == phrase
    ensures t + w1 + " " + w2 + p + " " == t + phrase
  {
  }

  /** Solver aid: the two phrases of the example, spelled out. */
  lemma Phrases()
    ensures "Hello" + " " + "thanks" + "." + " " == "Hello thanks. "
    ensures "How" + " " + "can" + "?" + " " == "How can? "
  {
  }

  lemma NewSpeakerStep(items: seq<Item>, k: nat, t: string, previous: Option<string>, speaker: string)
    requires k < |items| && Run(items[..k]) == Acc(t, previous)
    requires items[k].speakerLabel == Some(speaker) && Some(speaker) != previous && !IsPunctuation(items[k])
    ensures Run(items[..k + 1]) == Acc(t + Header(speaker) + items[k].content + " ", Some(speaker))
  {
    PrefixStep(items, k);
  }

  lemma WordStep(items: seq<Item>, k: nat, t: string, speaker: Option<string>)
    requires k < |items| && Run(items[..k]) == Acc(t, speaker)
    requires (items[k].speakerLabel == None || items[k].speakerLabel == speaker) && !IsPunctuation(items[k])
    ensures Run(items[..k + 1]) == Acc(t + items[k].content + " ", speaker)
  {
    PrefixStep(items, k);
  }

  lemma PunctuationStep(items: seq<Item>, k: nat, t: string, word: string, speaker: Option<string>)
    requires k < |items| && Run(items[..k]) == Acc(t + word + " ", speaker)
    requires word != "" && !IsWhitespace(word[|word| - 1])
    requires (items[k].speakerLabel == None || items[k].speakerLabel == speaker) && IsPunctuation(items[k])
    ensures Run(items[..k + 1]) == Acc(t + word + items[k].content + " ", speaker)
  {
    PrefixStep(items, k);
    assert (t + word)[|t + word| - 1] == word[|word| - 1];
    StripFinalSpace(t + word);
  }

  lemma PrefixStep(items: seq<Item>, k: nat)
    requires k < |items|
    ensures Run(items[..k + 1]) == Step(Run(items[..k]), items[k])
  {
    assert items[..k + 1][..k] == items[..k];
  }

  lemma StripFinalSpace(t: string)
    requires t != "" && !IsWhitespace(t[|t| - 1])
    ensures RStrip(t + " ") == t
  {
    RStripConcat(t, " ");
  }

  /** The input of the trailing-space unit test, which the handler's success
      test reads as well. */
  const GreetingItems: seq<Item> := [
    Item(Some("pronunciation"), "Hi", Some("SPEAKER_00")),
    Item(Some("punctuation"), ".", None)]

  /** The space before the full stop is stripped: "Hi." */
  lemma GreetingWithPeriod()
    ensures ExtractTranscript(GreetingItems) == "\nSPEAKER_00: Hi. "
  {
    var items := GreetingItems;
    assert items[..0] == [];
    NewSpeakerStep(items, 0, "", None, "SPEAKER_00");
    PunctuationStep(items, 1, "" + Header("SPEAKER_00"), "Hi", Some("SPEAKER_00"));
    assert items[..2] == items;
    GreetingSpelledOut();
  }

  /** Solver aid: the greeting example's output, spelled out. */
  lemma GreetingSpelledOut()
    ensures "" + Header("SPEAKER_00") + "Hi" + "." + " " == "\nSPEAKER_00: Hi. "
  {
  }
}
