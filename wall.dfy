/** The wall's view model: which notes are shown, how the first load and a
    post change that list, and the composer that feeds the post. */
module Wall {
  import opened JsText
  import opened Notes

  /** The six hand-written notes of the grey cards. */
  const StickyNotes: seq<string> := [
    "Sometimes the bravest thing you can do is speak your truth when no one is listening. But here, someone always is. In this space, your voice matters and your thoughts find their home among others who understand the weight of words unspoken.",
    "I never realized how much weight names carry until I learned to speak without one. Freedom tastes like anonymity.",
    "The most honest conversations happen when you remove everything except the words themselves. Without the burden of identity, we can express our deepest truths and connect on a level that transcends the superficial layers of who we pretend to be in our daily lives.",
    "Every whisper on this wall is a reminder that we're not alone in our thoughts, fears, and dreams.",
    "Identity can be a prison. Here, my thoughts fly free without the chains of who I'm supposed to be. In anonymity, I find liberation from expectations, judgments, and the constant pressure to maintain a curated version of myself.",
    "In a world of profiles and personas, there's something magical about pure, unfiltered human expression. This is where raw humanity meets digital space, creating connections that feel more authentic than anything we share with our names attached."
  ]

  /** The twelve further notes of the view-more overlay. */
  const MoreNotes: seq<string> := [
    "Some days, the loudest battles are the ones no one sees.",
    "I write here because the words feel lighter when I set them down.",
    "There\U{2019}s comfort in knowing a stranger might understand.",
    "I\U{2019}m not looking for advice\U{2014}just a place for this feeling to exist.",
    "I keep smiles ready for everyone. I wish I kept one for myself.",
    "Healing is slow, and that\U{2019}s okay. I\U{2019}m still here.",
    "If you\U{2019}re reading this, I hope today is kinder to you.",
    "I\U{2019}m learning that silence can be a form of strength, not defeat.",
    "Maybe honesty is the first step to finding peace.",
    "I\U{2019}m proud of the small things I kept going, even when no one noticed.",
    "I forgive myself for not knowing what I didn\U{2019}t know before.",
    "I\U{2019}m scared of change, but I\U{2019}m more scared of never trying."
  ]

  /** The limit of the first load. */
  const InitialFetchLimit: int := 60
  /** The composer's character cap. */
  const MaxCharacters: nat := 300
  /** How many notes the grid on the page shows. */
  const GridSize: nat := 6

  function Quotes(ns: seq<Note>): (qs: seq<string>)
    ensures |qs| == |ns|
    ensures forall i :: 0 <= i < |ns| ==> qs[i] == ns[i].quote
  {
    if ns == [] then [] else [ns[0].quote] + Quotes(ns[1..])
  }

  /** The remote list is in use when it was set and is not empty. */
  predicate UsesRemote(remote: Option<seq<Note>>)
  {
    remote.Some? && remote.value != []
  }

  /** `allNotes`: the remote quotes in order when there are any, else the
      eighteen fallback notes, sticky ones first. Never empty. */
  function AllNotes(remote: Option<seq<Note>>): (shown: seq<string>)
    ensures UsesRemote(remote) ==> |shown| == |remote.value|
    ensures UsesRemote(remote) ==> forall i :: 0 <= i < |shown| ==> shown[i] == remote.value[i].quote
    ensures !UsesRemote(remote) ==> |shown| == 18 && shown[..6] == StickyNotes && shown[6..] == MoreNotes
    ensures shown != []
  {
    if UsesRemote(remote) then Quotes(remote.value) else StickyNotes + MoreNotes
  }

  /** `allNotes.slice(0, 6)`: the first six notes, or all when fewer. */
  function GridNotes(all: seq<string>): (grid: seq<string>)
    ensures |grid| == if |all| < GridSize then |all| else GridSize
    ensures grid == all[..|grid|]
  {
    if |all| < GridSize then all else all[..GridSize]
  }

  /** Without remote notes the grid shows exactly the six sticky notes. */
  lemma FallbackGridIsStickyNotes(remote: Option<seq<Note>>)
    requires !UsesRemote(remote)
    ensures GridNotes(AllNotes(remote)) == StickyNotes
  {
  }

  /** With remote notes the grid shows the newest ones, at most six, and
      always at least one. */
  lemma RemoteGridIsNewest(remote: Option<seq<Note>>)
    requires UsesRemote(remote)
    ensures var grid := GridNotes(AllNotes(remote));
            1 <= |grid| <= GridSize && grid == Quotes(remote.value[..|grid|])
  {
    var grid := GridNotes(AllNotes(remote));
    var newest := Quotes(remote.value[..|grid|]);
    assert forall i :: 0 <= i < |grid| ==> grid[i] == newest[i];
  }

  datatype CardSize = Small | Large

  /** The overlay's card size: large at every seventh and every eleventh
      position, counting from zero. */
  function OverlayCardSize(index: nat): (size: CardSize)
    ensures size == Large <==> index % 7 == 0 || index % 11 == 0
  {
    if index % 7 == 0 || index % 11 == 0 then Large else Small
  }

  /** The size pattern repeats every 77 cards. */
  lemma {:induction false} OverlayCardSizePeriodic(index: nat)
    ensures OverlayCardSize(index + 77) == OverlayCardSize(index)
  {
    assert (index + 77) % 7 == index % 7 && (index + 77) % 11 == index % 11;
  }

  /** The optimistic prepend: the created note goes in front of the list,
      which is empty when it was never set. */
  function Prepend(remote: Option<seq<Note>>, created: Note): (r: Option<seq<Note>>)
    ensures r.Some? && |r.value| >= 1 && r.value[0] == created
    ensures r.value[1..] == if remote.Some? then remote.value else []
  {
    Some([created] + if remote.Some? then remote.value else [])
  }

  /** After a prepend the created note is shown first. When the list was
      in use, it follows unchanged and in order; when the fallback was
      shown, the created note is all that is shown. */
  lemma {:induction false} ShownAfterPrepend(remote: Option<seq<Note>>, created: Note)
    ensures AllNotes(Prepend(remote, created)) ==
            [created.quote] + if UsesRemote(remote) then AllNotes(remote) else []
  {
    var after := AllNotes(Prepend(remote, created));
    var expected := [created.quote] + if UsesRemote(remote) then AllNotes(remote) else [];
    if UsesRemote(remote) {
      assert forall i :: 1 <= i < |after| ==> after[i] == AllNotes(remote)[i - 1];
    } else if remote.Some? {
      assert remote.value == [];
    }
    assert |after| == |expected|;
    assert forall i :: 0 <= i < |after| ==> after[i] == expected[i];
  }

  /** When the backend stores what it was sent and echoes the row back,
      posting non-blank text shows that text, trimmed, first on the wall. */
  lemma PostedTextShownFirst(remote: Option<seq<Note>>, text: string, hasBackend: bool, cfg: Config,
                             backend: InsertQuery -> InsertReply)
    requires hasBackend && !IsBlank(text)
    requires var q := InsertQueryFor(true, cfg, Trim(text)).value;
             backend(q).Inserted? && backend(q).row.fields == q.rows[0]
    ensures var created := CreateNote(hasBackend, cfg, Trim(text), backend);
            created.Some? && AllNotes(Prepend(remote, created.value))[0] == Trim(text) != ""
  {
    CreateEchoesQuote(cfg, Trim(text), backend);
    TrimEmptyIffBlank(text);
  }

  /** `value.slice(0, 300)`: the composer keeps at most 300 characters, the
      first ones typed. */
  function Clamp(input: string): (t: string)
    ensures |t| <= MaxCharacters && |t| <= |input| && t == input[..|t|]
    ensures |input| <= MaxCharacters ==> t == input
    ensures |t| == if |input| <= MaxCharacters then |input| else MaxCharacters
  {
    if |input| <= MaxCharacters then input else input[..MaxCharacters]
  }

  /** The page's state: the remote list (null until set), the composer's
      text and whether the composer is open. */
  class WallState {
    var remoteNotes: Option<seq<Note>>
    var noteText: string
    var composerOpen: bool

    /** The composer text is within the cap, and the remote list, once set,
        is never empty. */
    ghost predicate Valid()
      reads this
    {
      |noteText| <= MaxCharacters && (remoteNotes.Some? ==> remoteNotes.value != [])
    }

    /** What the wall shows. */
    function Shown(): seq<string>
      reads this
    {
      AllNotes(remoteNotes)
    }

    /** Whether the Post button is enabled. */
    predicate PostEnabled()
      reads this
    {
      Trim(noteText) != ""
    }

    constructor ()
      ensures Valid()
      ensures remoteNotes == None && noteText == "" && !composerOpen
      ensures Shown() == StickyNotes + MoreNotes
    {
      remoteNotes := None;
      noteText := "";
      composerOpen := false;
    }

    /** The first load: the list is replaced only by a non-empty result. */
    method InitialLoad(hasBackend: bool, cfg: Config, backend: SelectQuery -> FetchReply)
      requires Valid()
      modifies this`remoteNotes
      ensures Valid()
      ensures var data := FetchNotes(hasBackend, cfg, InitialFetchLimit, backend);
              remoteNotes == if data != [] then Some(data) else old(remoteNotes)
    {
      var data := FetchNotes(hasBackend, cfg, InitialFetchLimit, backend);
      if |data| > 0 {
        remoteNotes := Some(data);
      }
    }

    /** `handlePostNote(text)`. Blank text does nothing and sends nothing
        (`sent` is `None`); other text is sent trimmed, and a created note
        is put in front of the list. */
    method PostNote(text: string, hasBackend: bool, cfg: Config, backend: InsertQuery -> InsertReply)
      returns (sent: Option<string>)
      requires Valid()
      modifies this`remoteNotes
      ensures Valid()
      ensures IsBlank(text) ==> sent == None && remoteNotes == old(remoteNotes)
      ensures !IsBlank(text) ==> sent == Some(Trim(text)) && Trim(text) != ""
      ensures !IsBlank(text) ==>
                var created := CreateNote(hasBackend, cfg, Trim(text), backend);
                remoteNotes == if created.Some? then Prepend(old(remoteNotes), created.value) else old(remoteNotes)
    {
      TrimEmptyIffBlank(text);
      if Trim(text) == "" {
        return None;
      }
      sent := Some(Trim(text));
      var created := CreateNote(hasBackend, cfg, Trim(text), backend);
      if created.Some? {
        remoteNotes := Prepend(remoteNotes, created.value);
      }
    }

    method OpenComposer()
      modifies this`composerOpen
      ensures composerOpen
    {
      composerOpen := true;
    }

    method CloseComposer()
      modifies this`composerOpen
      ensures !composerOpen
    {
      composerOpen := false;
    }

    /** The text area's change handler: the new value, cut to the cap. */
    method EditText(input: string)
      requires Valid()
      modifies this`noteText
      ensures Valid()
      ensures noteText == Clamp(input)
    {
      noteText := Clamp(input);
    }

    /** The composer's Post action: only non-blank text is posted, after
        which the text is cleared and the composer closed; otherwise
        nothing changes. */
    method Post(hasBackend: bool, cfg: Config, backend: InsertQuery -> InsertReply)
      requires Valid()
      modifies this
      ensures Valid()
      ensures !old(PostEnabled()) ==>
                remoteNotes == old(remoteNotes) && noteText == old(noteText) && composerOpen == old(composerOpen)
      ensures old(PostEnabled()) ==> noteText == "" && !composerOpen
      ensures old(PostEnabled()) ==>
                var created := CreateNote(hasBackend, cfg, Trim(old(noteText)), backend);
                remoteNotes == if created.Some? then Prepend(old(remoteNotes), created.value) else old(remoteNotes)
    {
      if Trim(noteText) != "" {
        TrimEmptyIffBlank(noteText);
        var _ := PostNote(noteText, hasBackend, cfg, backend);
        noteText := "";
        composerOpen := false;
      }
    }
  }
}
