/** The hero's typewriter: it types a phrase one character at a time,
    pauses, deletes it one character at a time, and moves on to the next of
    ten phrases, round and round. One call of `Step` is one run of the
    animation callback; the delays between runs are not modelled. */
module Typewriter {

  const Phrases: seq<string> := [
    "Not every story needs a storyteller.",
    "Not every truth needs a face.",
    "Not every message needs a sender.",
    "The wall remembers, but does not ask who.",
    "Some notes are best unsigned.",
    "Say it without saying who.",
    "Anonymous, but never unheard.",
    "The wall holds your words, not your identity.",
    "A note without a name still has meaning.",
    "Notes are free when no name binds them."
  ]

  /** `(currentText, isDeleting, phraseIndex)`. */
  datatype TypeState = TypeState(text: string, deleting: bool, index: nat)

  /** The state on mount. */
  const Initial: TypeState := TypeState("", false, 0)

  /** The index names a phrase, and the text shown is a prefix of it. */
  predicate Valid(s: TypeState)
  {
    s.index < |Phrases| && s.text <= Phrases[s.index]
  }

  /** One step. Typing adds the phrase's next character until the whole
      phrase is shown, then switches to deleting; deleting removes the last
      character until none is left, then moves to the next phrase and
      switches back to typing. */
  function Next(s: TypeState): (r: TypeState)
    requires s.index < |Phrases|
    ensures Valid(s) ==> Valid(r)
    ensures r.index < |Phrases|
    ensures r.index != s.index ==> s.deleting && s.text == "" && !r.deleting
    ensures s.deleting && s.text == "" ==> r == TypeState("", false, (s.index + 1) % |Phrases|)
    ensures !s.deleting && |s.text| < |Phrases[s.index]| ==>
              !r.deleting && r.index == s.index && |r.text| == |s.text| + 1 && r.text <= Phrases[s.index]
    ensures !s.deleting && |s.text| >= |Phrases[s.index]| ==> r == s.(deleting := true)
    ensures s.deleting && s.text != "" ==>
              r.deleting && r.index == s.index && |r.text| == |s.text| - 1 && r.text <= s.text
  {
    var phrase := Phrases[s.index];
    if !s.deleting then
      if |s.text| < |phrase| then s.(text := phrase[..|s.text| + 1])
      else s.(deleting := true)
    else
      if |s.text| > 0 then s.(text := s.text[..|s.text| - 1])
      else TypeState(s.text, false, (s.index + 1) % |Phrases|)
  }

  /** `n` steps from `s`. */
  function Run(s: TypeState, n: nat): (r: TypeState)
    requires s.index < |Phrases|
    ensures r.index < |Phrases|
    decreases n
  {
    if n == 0 then s else Run(Next(s), n - 1)
  }

  /** Every state reached from a valid one is valid. */
  lemma {:induction false} RunKeepsValid(s: TypeState, n: nat)
    requires Valid(s)
    ensures Valid(Run(s, n))
    decreases n
  {
    if n > 0 {
      RunKeepsValid(Next(s), n - 1);
    }
  }

  lemma {:induction false} RunAdditive(s: TypeState, m: nat, n: nat)
    requires s.index < |Phrases|
    ensures Run(s, m + n) == Run(Run(s, m), n)
    decreases m
  {
    if m > 0 {
      RunAdditive(Next(s), m - 1, n);
    }
  }

  /** Typing from the first `k` characters reaches the whole phrase in as
      many steps as characters are missing. */
  lemma {:induction false} TypingCompletes(i: nat, k: nat)
    requires i < |Phrases| && k <= |Phrases[i]|
    ensures Run(TypeState(Phrases[i][..k], false, i), |Phrases[i]| - k) == TypeState(Phrases[i], false, i)
    decreases |Phrases[i]| - k
  {
    if k < |Phrases[i]| {
      assert Phrases[i][..k + 1][..k] == Phrases[i][..k];
      assert Next(TypeState(Phrases[i][..k], false, i)) == TypeState(Phrases[i][..k + 1], false, i);
      TypingCompletes(i, k + 1);
    } else {
      assert Phrases[i][..k] == Phrases[i];
    }
  }

  /** Deleting from the first `k` characters empties the text in `k` steps. */
  lemma {:induction false} DeletingCompletes(i: nat, k: nat)
    requires i < |Phrases| && k <= |Phrases[i]|
    ensures Run(TypeState(Phrases[i][..k], true, i), k) == TypeState("", true, i)
    decreases k
  {
    if k > 0 {
      assert Phrases[i][..k][..k - 1] == Phrases[i][..k - 1];
      DeletingCompletes(i, k - 1);
    }
  }

  /** A full cycle: from the start of phrase `i`, typing it out, switching,
      deleting it and switching again takes twice its length plus two steps
      and ends at the start of the next phrase, wrapping after the tenth. */
  lemma PhraseCycle(i: nat)
    requires i < |Phrases|
    ensures Run(TypeState("", false, i), 2 * |Phrases[i]| + 2) == TypeState("", false, (i + 1) % |Phrases|)
  {
    var p := Phrases[i];
    var start := TypeState("", false, i);
    var typed := TypeState(p, false, i);
    var full := TypeState(p, true, i);
    var empty := TypeState("", true, i);
    assert start == TypeState(p[..0], false, i);
    TypingCompletes(i, 0);
    assert Run(typed, 1) == full;
    assert full == TypeState(p[..|p|], true, i);
    DeletingCompletes(i, |p|);
    assert Run(empty, 1) == TypeState("", false, (i + 1) % |Phrases|);
    RunAdditive(start, |p|, 1);
    RunAdditive(start, |p| + 1, |p|);
    RunAdditive(start, 2 * |p| + 1, 1);
  }

  /** The animation's state, updated in place by its setters. */
  class Typewriter {
    var currentText: string
    var isDeleting: bool
    var phraseIndex: nat

    function State(): TypeState
      reads this
    {
      TypeState(currentText, isDeleting, phraseIndex)
    }

    constructor ()
      ensures State() == Initial && Valid(State())
    {
      currentText := "";
      isDeleting := false;
      phraseIndex := 0;
    }

    /** One run of the animation callback. */
    method Step()
      requires Valid(State())
      modifies this
      ensures State() == Next(old(State()))
      ensures Valid(State())
    {
      var phrase := Phrases[phraseIndex];
      if !isDeleting {
        if |currentText| < |phrase| {
          currentText := phrase[..|currentText| + 1];
        } else {
          isDeleting := true;
        }
      } else {
        if |currentText| > 0 {
          currentText := currentText[..|currentText| - 1];
        } else {
          isDeleting := false;
          phraseIndex := (phraseIndex + 1) % |Phrases|;
        }
      }
    }
  }
}
