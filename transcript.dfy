/**
 * The conversation store's entries and the two pure views of it: the plain-text
 * transcript offered for download and the window of recent entries a pass
 * renders.
 */
module Transcript {

  /** One utterance: the stripped English transcription and its stripped Greek translation. */
  datatype Entry = Entry(english: string, greek: string)

  /** "🗣️ English: " (speaking head, variation selector 16). */
  const EnglishLabel: string := "\U{1F5E3}\U{FE0F} English: "
  /** A line break, then "🇬🇷 Greek: " (the regional indicators G and R). */
  const GreekLabel: string := "\n\U{1F1EC}\U{1F1F7} Greek: "
  /** The string the exported transcript puts between two entries. */
  const Separator: string := "\n\n"
  /** How many of the latest entries a storing pass renders. */
  const RenderLimit: nat := 10

  /** The transcript text of one entry: the English line, then the Greek line. */
  function EntryText(e: Entry): (t: string)
    ensures |t| == |EnglishLabel| + |e.english| + |GreekLabel| + |e.greek|
  {
    EnglishLabel + e.english + GreekLabel + e.greek
  }

  /** Both texts of an entry can be read back from its transcript text, each after its label. */
  lemma EntryTextFields(e: Entry)
    ensures var t, n := EntryText(e), |EnglishLabel| + |e.english|;
            t[..|EnglishLabel|] == EnglishLabel
            && t[|EnglishLabel|..n] == e.english
            && t[n..n + |GreekLabel|] == GreekLabel
            && t[n + |GreekLabel|..] == e.greek
  {
    var t, n := EntryText(e), |EnglishLabel| + |e.english|;
    assert t == (EnglishLabel + e.english) + (GreekLabel + e.greek);
    assert t[n..] == GreekLabel + e.greek;
  }

  /** The entry texts of a conversation, in conversation order. */
  function EntryTexts(conv: seq<Entry>): (ts: seq<string>)
    ensures |ts| == |conv|
    ensures forall i :: 0 <= i < |conv| ==> ts[i] == EntryText(conv[i])
  {
    seq(|conv|, i requires 0 <= i < |conv| => EntryText(conv[i]))
  }

  /** The sum of the lengths of the parts. */
  function TotalLength(parts: seq<string>): nat {
    if parts == [] then 0 else |parts[0]| + TotalLength(parts[1..])
  }

  /** Python's `sep.join(parts)`. */
  function Join(sep: string, parts: seq<string>): (r: string)
    ensures parts == [] ==> r == ""
    ensures parts != [] ==> |parts[0]| <= |r| && r[..|parts[0]|] == parts[0]
  {
    if |parts| == 0 then ""
    else if |parts| == 1 then parts[0]
    else parts[0] + sep + Join(sep, parts[1..])
  }

  /** A join is as long as its parts together, plus one separator between each two. */
  lemma {:induction false} JoinLength(sep: string, parts: seq<string>)
    ensures parts != [] ==> |Join(sep, parts)| == TotalLength(parts) + |sep| * (|parts| - 1)
  {
    if |parts| > 1 {
      JoinLength(sep, parts[1..]);
    }
  }

  /** Where part `i` begins in `Join(sep, parts)`: past every earlier part and the separator after it. */
  function Offset(sep: string, parts: seq<string>, i: nat): nat
    requires i <= |parts|
  {
    if i == 0 then 0 else |parts[0]| + |sep| + Offset(sep, parts[1..], i - 1)
  }

  /** The offset of part `i` is the length of the parts before it plus one separator per part. */
  lemma {:induction false} OffsetValue(sep: string, parts: seq<string>, i: nat)
    requires i <= |parts|
    ensures Offset(sep, parts, i) == TotalLength(parts[..i]) + |sep| * i
  {
    if i == 0 {
      assert parts[..0] == [];
    } else {
      OffsetValue(sep, parts[1..], i - 1);
      assert parts[..i][1..] == parts[1..][..i - 1];
    }
  }

  /** A slice of the second half of a concatenation is a slice of that half. */
  lemma SliceOfSuffix(a: string, b: string, x: nat, y: nat)
    requires x <= y <= |b|
    ensures (a + b)[|a| + x..|a| + y] == b[x..y]
  {
    assert forall k :: 0 <= k < y - x ==> (a + b)[|a| + x..|a| + y][k] == b[x..y][k];
  }

  /** Part `i` sits at its offset in the joined string. */
  lemma {:induction false} JoinAt(sep: string, parts: seq<string>, i: nat)
    requires i < |parts|
    ensures Offset(sep, parts, i) + |parts[i]| <= |Join(sep, parts)|
    ensures Join(sep, parts)[Offset(sep, parts, i)..Offset(sep, parts, i) + |parts[i]|] == parts[i]
  {
    if i > 0 {
      var head, rest := parts[0] + sep, Join(sep, parts[1..]);
      assert Join(sep, parts) == head + rest;
      JoinAt(sep, parts[1..], i - 1);
      var o := Offset(sep, parts[1..], i - 1);
      assert parts[1..][i - 1] == parts[i];
      SliceOfSuffix(head, rest, o, o + |parts[i]|);
    }
  }

  /** A separator follows every part but the last in the joined string. */
  lemma {:induction false} JoinSeparatorAt(sep: string, parts: seq<string>, i: nat)
    requires i + 1 < |parts|
    ensures Offset(sep, parts, i + 1) == Offset(sep, parts, i) + |parts[i]| + |sep|
    ensures Offset(sep, parts, i + 1) <= |Join(sep, parts)|
    ensures Join(sep, parts)[Offset(sep, parts, i) + |parts[i]|..Offset(sep, parts, i + 1)] == sep
  {
    var head, rest := parts[0] + sep, Join(sep, parts[1..]);
    assert Join(sep, parts) == head + rest;
    if i == 0 {
      assert Offset(sep, parts[1..], 0) == 0;
      assert (head + rest)[|parts[0]|..|head|] == sep;
    } else {
      JoinSeparatorAt(sep, parts[1..], i - 1);
      var o := Offset(sep, parts[1..], i - 1);
      assert parts[1..][i - 1] == parts[i];
      SliceOfSuffix(head, rest, o + |parts[i]|, o + |parts[i]| + |sep|);
    }
  }

  /** Joining one more part extends the joined string by a separator and that part. */
  lemma {:induction false} JoinAppend(sep: string, parts: seq<string>, x: string)
    requires parts != []
    ensures Join(sep, parts + [x]) == Join(sep, parts) + sep + x
  {
    if |parts| == 1 {
      assert (parts + [x])[1..] == [x];
    } else {
      assert (parts + [x])[1..] == parts[1..] + [x];
      JoinAppend(sep, parts[1..], x);
    }
  }

  /** The downloadable transcript: `"\n\n".join(EntryText(e) for e in conversation)`. */
  function Export(conv: seq<Entry>): (r: string)
    ensures r == "" <==> conv == []
    ensures conv != [] ==> |r| == TotalLength(EntryTexts(conv)) + 2 * (|conv| - 1)
    ensures conv != [] ==> r[..|EntryText(conv[0])|] == EntryText(conv[0])
  {
    JoinLength(Separator, EntryTexts(conv));
    Join(Separator, EntryTexts(conv))
  }

  /**
   * Entry `i`'s text (`EntryTexts(conv)[i]`, which is `EntryText(conv[i])`) sits at its
   * offset in the transcript, and a blank line follows it unless it is the last.
   */
  lemma ExportAt(conv: seq<Entry>, i: nat)
    requires i < |conv|
    ensures var ts := EntryTexts(conv);
            var o := Offset(Separator, ts, i);
            o + |ts[i]| <= |Export(conv)| && Export(conv)[o..o + |ts[i]|] == ts[i]
    ensures var ts := EntryTexts(conv);
            var o := Offset(Separator, ts, i);
            i + 1 < |conv| ==>
              Offset(Separator, ts, i + 1) == o + |ts[i]| + |Separator| <= |Export(conv)|
              && Export(conv)[o + |ts[i]|..o + |ts[i]| + |Separator|] == Separator
  {
    var ts := EntryTexts(conv);
    assert Export(conv) == Join(Separator, ts);
    JoinAt(Separator, ts, i);
    if i + 1 < |conv| {
      JoinSeparatorAt(Separator, ts, i);
    }
  }

  /** Appending an entry to a non-empty conversation appends a blank line and its text to the transcript. */
  lemma ExportAppend(conv: seq<Entry>, e: Entry)
    requires conv != []
    ensures Export(conv + [e]) == Export(conv) + Separator + EntryText(e)
  {
    assert EntryTexts(conv + [e]) == EntryTexts(conv) + [EntryText(e)];
    JoinAppend(Separator, EntryTexts(conv), EntryText(e));
  }

  /** As the conversation grows, the earlier transcript stays a prefix of the later one. */
  lemma {:induction false} ExportGrows(conv: seq<Entry>, more: seq<Entry>)
    requires conv != []
    ensures Export(conv) <= Export(conv + more)
    decreases |more|
  {
    if more != [] {
      var init := more[..|more| - 1];
      assert conv + more == (conv + init) + [more[|more| - 1]];
      ExportGrows(conv, init);
      ExportAppend(conv + init, more[|more| - 1]);
    } else {
      assert conv + more == conv;
    }
  }

  /** Python's `s[k:]`: a negative `k` counts from the end, and either end is clamped to the sequence. */
  function SliceFrom<T>(s: seq<T>, k: int): seq<T> {
    var start := if k < 0 then (if |s| + k < 0 then 0 else |s| + k)
                 else (if k > |s| then |s| else k);
    s[start..]
  }

  /** `conversation[-10:]`, the entries a storing pass renders. */
  function Recent(conv: seq<Entry>): (w: seq<Entry>)
    ensures |w| == if |conv| < RenderLimit then |conv| else RenderLimit
    ensures forall k :: 0 <= k < |w| ==> w[k] == conv[|conv| - |w| + k]
  {
    SliceFrom(conv, -(RenderLimit as int))
  }

  /** The window slides by one: a new entry enters at the end and, once the window is full, the oldest one leaves. */
  lemma RecentAppend(conv: seq<Entry>, e: Entry)
    ensures Recent(conv + [e]) == (if |conv| < RenderLimit then conv else Recent(conv)[1..]) + [e]
  {
    var w, w' := Recent(conv), Recent(conv + [e]);
    var expected := (if |conv| < RenderLimit then conv else w[1..]) + [e];
    assert |w'| == |expected|;
    forall k | 0 <= k < |w'| ensures w'[k] == expected[k] {
      if k < |w'| - 1 {
        assert (conv + [e])[|conv| + 1 - |w'| + k] == conv[|conv| + 1 - |w'| + k];
      }
    }
  }
}
