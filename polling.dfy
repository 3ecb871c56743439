/**
 * One pass of the transcriber's polling loop after an audio chunk has been
 * dequeued: transcribe, strip, translate when there is something to
 * translate, strip again, append one entry to the conversation and show the
 * latest entries. The two remote services are not modelled: their replies are
 * inputs, each either the text it returned or the message of what it raised.
 */
module Polling {
  import opened Text
  import opened Transcript

  datatype Option<T> = None | Some(value: T)

  /** What a remote call gave back: the reply's text, or the message of the exception it raised. */
  datatype Reply = Returned(text: string) | Raised(message: string)

  /** How one pass ends for the user. */
  datatype Outcome =
    | Silence                                  // the stripped transcription was empty
    | Stored(entry: Entry, shown: seq<Entry>)  // an entry was appended; `shown` is the window this pass renders
    | Warned(message: string)                  // a call raised; this pass issues this warning

  /** The conversation after a pass, how the pass ended, and the prompt sent for translation, if any. */
  datatype Pass = Pass(conversation: seq<Entry>, outcome: Outcome, prompt: Option<string>)

  /** The instruction put before the English text in the translation request. */
  const PromptPrefix: string := "Translate this to Greek:\n\n"
  /** "⚠️ Error: " (warning sign, variation selector 16), put before the exception's message. */
  const WarningPrefix: string := "\U{26A0}\U{FE0F} Error: "

  /** The translation request for a stripped English text. */
  function TranslationPrompt(english: string): (p: string)
    ensures |p| == |PromptPrefix| + |english|
    ensures p[..|PromptPrefix|] == PromptPrefix
    ensures p[|PromptPrefix|..] == english
  {
    PromptPrefix + english
  }

  /** Different texts give different prompts: the English text can be read back from the prompt. */
  lemma PromptInjective(a: string, b: string)
    requires TranslationPrompt(a) == TranslationPrompt(b)
    ensures a == b
  {
    assert a == TranslationPrompt(a)[|PromptPrefix|..];
  }

  /** What the store holds of every entry: the English text is not empty, and both texts are stripped. */
  predicate ValidEntry(e: Entry) {
    e.english != [] && IsStripped(e.english) && IsStripped(e.greek)
  }

  predicate ValidConversation(conv: seq<Entry>) {
    forall i :: 0 <= i < |conv| ==> ValidEntry(conv[i])
  }

  /** Both calls returned and the stripped transcription is not empty: the pass stores an entry. */
  predicate Succeeds(transcription: Reply, translation: Reply) {
    transcription.Returned? && Strip(transcription.text) != [] && translation.Returned?
  }

  /**
   * One pass over a dequeued chunk, given what the transcription service and,
   * if it is asked, the translation service reply.
   */
  function Update(conv: seq<Entry>, transcription: Reply, translation: Reply): (r: Pass)
    // The translation service is asked exactly when the stripped transcription is not empty,
    // and it is asked with the fixed instruction followed by that text.
    ensures r.prompt.Some? <==> transcription.Returned? && Strip(transcription.text) != []
    ensures r.prompt.Some? ==> r.prompt.value == TranslationPrompt(Strip(transcription.text))
    // An entry is stored exactly when both calls return and there was something to translate;
    // it is appended at the end, everything before it is kept, and the pass renders the latest entries.
    ensures r.outcome.Stored? <==> Succeeds(transcription, translation)
    ensures r.outcome.Stored? ==>
              r.outcome.entry == Entry(Strip(transcription.text), Strip(translation.text))
              && r.conversation == conv + [r.outcome.entry]
              && r.outcome.shown == Recent(r.conversation)
    // Otherwise the conversation is left as it was.
    ensures !r.outcome.Stored? ==> r.conversation == conv
    // A failed call is reported with its message, and only a failed call is.
    ensures r.outcome.Warned? <==> transcription.Raised? || (r.prompt.Some? && translation.Raised?)
    ensures r.outcome.Warned? ==>
              r.outcome.message == WarningPrefix + (if transcription.Raised? then transcription.message
                                                    else translation.message)
    // The store's invariant is kept.
    ensures ValidConversation(conv) ==> ValidConversation(r.conversation)
  {
    match transcription
    case Raised(m) => Pass(conv, Warned(WarningPrefix + m), None)
    case Returned(t) =>
      var english := Strip(t);
      if english == [] then Pass(conv, Silence, None)
      else
        var prompt := Some(TranslationPrompt(english));
        match translation
        case Raised(m) => Pass(conv, Warned(WarningPrefix + m), prompt)
        case Returned(g) =>
          var conv' := conv + [Entry(english, Strip(g))];
          Pass(conv', Stored(Entry(english, Strip(g)), Recent(conv')), prompt)
  }

  /** What the services reply for one dequeued chunk. */
  datatype Chunk = Chunk(transcription: Reply, translation: Reply)

  /** The conversation after the loop has processed `chunks` in order, starting from `conv`. */
  function Replay(conv: seq<Entry>, chunks: seq<Chunk>): seq<Entry>
    decreases |chunks|
  {
    if chunks == [] then conv
    else Replay(Update(conv, chunks[0].transcription, chunks[0].translation).conversation, chunks[1..])
  }

  /** The entry one chunk contributes: one when its pass succeeds, none otherwise. */
  function Contribution(c: Chunk): seq<Entry> {
    if Succeeds(c.transcription, c.translation)
    then [Entry(Strip(c.transcription.text), Strip(c.translation.text))]
    else []
  }

  /** The entries a run of chunks contributes, defined without the loop: one per successful chunk, in order. */
  function StoredEntries(chunks: seq<Chunk>): seq<Entry>
    decreases |chunks|
  {
    if chunks == [] then [] else Contribution(chunks[0]) + StoredEntries(chunks[1..])
  }

  lemma {:induction false} StoredEntriesAppend(a: seq<Chunk>, b: seq<Chunk>)
    ensures StoredEntries(a + b) == StoredEntries(a) + StoredEntries(b)
    decreases |a|
  {
    if a == [] {
      assert a + b == b;
    } else {
      var ab := a + b;
      assert ab[0] == a[0] && ab[1..] == a[1..] + b;
      StoredEntriesAppend(a[1..], b);
      calc {
        StoredEntries(ab);
        Contribution(a[0]) + StoredEntries(a[1..] + b);
        Contribution(a[0]) + (StoredEntries(a[1..]) + StoredEntries(b));
        (Contribution(a[0]) + StoredEntries(a[1..])) + StoredEntries(b);
      }
    }
  }

  /** What one chunk's pass adds to the conversation is that chunk's contribution. */
  lemma UpdateStores(conv: seq<Entry>, c: Chunk)
    ensures Update(conv, c.transcription, c.translation).conversation == conv + Contribution(c)
  {
  }

  /** Processing chunks only appends: the result is the start followed by one entry per successful chunk. */
  lemma {:induction false} ReplayAppends(conv: seq<Entry>, chunks: seq<Chunk>)
    ensures Replay(conv, chunks) == conv + StoredEntries(chunks)
    decreases |chunks|
  {
    if chunks != [] {
      var c, rest := chunks[0], chunks[1..];
      var next := Update(conv, c.transcription, c.translation).conversation;
      var mine, later := Contribution(c), StoredEntries(rest);
      UpdateStores(conv, c);
      ReplayAppends(next, rest);
      assert Replay(conv, chunks) == next + later;
      assert StoredEntries(chunks) == mine + later;
      assert (conv + mine) + later == conv + (mine + later);
    }
  }

  /** Each earlier state of the conversation is a prefix of every later one. */
  lemma ReplayPrefix(conv: seq<Entry>, chunks: seq<Chunk>, i: nat, j: nat)
    requires i <= j <= |chunks|
    ensures Replay(conv, chunks[..i]) <= Replay(conv, chunks[..j])
  {
    ReplayAppends(conv, chunks[..i]);
    ReplayAppends(conv, chunks[..j]);
    assert chunks[..j] == chunks[..i] + chunks[i..j];
    StoredEntriesAppend(chunks[..i], chunks[i..j]);
  }

  /** No run of chunks ever stores more entries than it has chunks. */
  lemma {:induction false} StoredEntriesBound(chunks: seq<Chunk>)
    ensures |StoredEntries(chunks)| <= |chunks|
    decreases |chunks|
  {
    if chunks != [] {
      StoredEntriesBound(chunks[1..]);
    }
  }

  /** The store's invariant holds after any run of chunks that starts from a valid conversation. */
  lemma {:induction false} ReplayValid(conv: seq<Entry>, chunks: seq<Chunk>)
    requires ValidConversation(conv)
    ensures ValidConversation(Replay(conv, chunks))
    decreases |chunks|
  {
    if chunks != [] {
      var c := chunks[0];
      ReplayValid(Update(conv, c.transcription, c.translation).conversation, chunks[1..]);
    }
  }

  /** A chunk heard as "Hello there" and translated as "Γεια σου" gives exactly that one entry. */
  lemma HelloThere()
    ensures var greek := "\U{393}\U{3B5}\U{3B9}\U{3B1} \U{3C3}\U{3BF}\U{3C5}";
            Update([], Returned("Hello there"), Returned(greek)).conversation == [Entry("Hello there", greek)]
  {
    StripStripped("Hello there");
    StripStripped("\U{393}\U{3B5}\U{3B9}\U{3B1} \U{3C3}\U{3BF}\U{3C5}");
  }

  /** A chunk heard as silence (white space only) changes nothing and asks for no translation. */
  lemma SilentChunk(conv: seq<Entry>, heard: string, translation: Reply)
    requires AllSpace(heard)
    ensures Update(conv, Returned(heard), translation) == Pass(conv, Silence, None)
  {
  }

  /**
   * The per-session state that survives the script's reruns. `hasConversation`
   * says whether the session already holds a conversation.
   */
  class SessionState {
    var hasConversation: bool
    var conversation: seq<Entry>

    ghost predicate Valid()
      reads this
    {
      ValidConversation(conversation) && (!hasConversation ==> conversation == [])
    }

    /** A new browser session holds no conversation yet. */
    constructor ()
      ensures Valid() && !hasConversation
    {
      hasConversation := false;
      conversation := [];
    }

    /** Run on every rerun of the script: create the empty conversation unless the session has one. */
    method InitConversation()
      requires Valid()
      modifies this
      ensures Valid() && hasConversation
      ensures conversation == if old(hasConversation) then old(conversation) else []
    {
      if !hasConversation {
        conversation := [];
        hasConversation := true;
      }
    }

    /**
     * One pass of the polling loop over a dequeued chunk. The returned prompt
     * is what would be sent to the translation service (None: it is not asked).
     */
    method Step(transcription: Reply, translation: Reply) returns (outcome: Outcome, prompt: Option<string>)
      requires Valid() && hasConversation
      modifies this
      ensures Valid() && hasConversation
      ensures Pass(conversation, outcome, prompt) == Update(old(conversation), transcription, translation)
    {
      prompt := None;
      if transcription.Raised? {
        outcome := Warned(WarningPrefix + transcription.message);
        return;
      }
      var english := Strip(transcription.text);
      if english == [] {
        outcome := Silence;
        return;
      }
      prompt := Some(TranslationPrompt(english));
      if translation.Raised? {
        outcome := Warned(WarningPrefix + translation.message);
        return;
      }
      var greek := Strip(translation.text);
      conversation := conversation + [Entry(english, greek)];
      outcome := Stored(Entry(english, greek), Recent(conversation));
    }

    /**
     * The transcript offered for download on a script run that gets past the
     * capture loop (capture not playing): only once there is at least one entry.
     */
    method TranscriptDownload() returns (data: Option<string>)
      ensures data.Some? <==> conversation != []
      ensures data.Some? ==> data.value == Export(conversation) && data.value != ""
    {
      if conversation != [] {
        data := Some(Export(conversation));
      } else {
        data := None;
      }
    }
  }
}
