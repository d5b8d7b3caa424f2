/** The hero section's typewriter (`useTypewriter`): it types the current
    word one character per tick, waits, deletes it one character per tick,
    and moves on to the next word, cycling. Only the transitions are
    modelled; the delays between ticks are not. */
module Typewriter {

  /** The hook's `displayText`, `wordIndex` and `isDeleting` state. */
  datatype TypeState = TypeState(displayText: string, wordIndex: nat, isDeleting: bool)

  const Start: TypeState := TypeState("", 0, false)

  /** The state a tick leaves: while typing, one more character of the word,
      or (after the pause) deleting once the whole word is shown; while
      deleting, one character less, or the next word once nothing is left. */
  function Step(words: seq<string>, s: TypeState): (r: TypeState)
    requires s.wordIndex < |words|
    ensures r.wordIndex < |words|
  {
    var word := words[s.wordIndex];
    var n := |s.displayText|;
    if !s.isDeleting then
      if n < |word| then s.(displayText := word[..n + 1]) else s.(isDeleting := true)
    else
      if n > 0 then s.(displayText := s.displayText[..n - 1])
      else TypeState(s.displayText, (s.wordIndex + 1) % |words|, false)
  }

  /** What the hook maintains: the index names a word and the text shown is
      the start of that word. */
  predicate Consistent(words: seq<string>, s: TypeState) {
    s.wordIndex < |words| && |s.displayText| <= |words[s.wordIndex]|
    && s.displayText == words[s.wordIndex][..|s.displayText|]
  }

  /** Every tick keeps the state consistent: typing adds the word's next
      character, the full word switches to deleting, deleting drops the last
      character, and an empty text moves to the next word. */
  lemma StepKeepsConsistent(words: seq<string>, s: TypeState)
    requires Consistent(words, s)
    ensures Consistent(words, Step(words, s))
    ensures var r := Step(words, s); var w := words[s.wordIndex];
      && (!s.isDeleting && |s.displayText| < |w| ==> r == s.(displayText := s.displayText + [w[|s.displayText|]]))
      && (!s.isDeleting && |s.displayText| == |w| ==> r == s.(isDeleting := true))
      && (s.isDeleting && s.displayText != "" ==> r == s.(displayText := s.displayText[..|s.displayText| - 1]))
      && (s.isDeleting && s.displayText == "" ==> r == TypeState("", (s.wordIndex + 1) % |words|, false))
  {
    var w := words[s.wordIndex];
    var n := |s.displayText|;
    if !s.isDeleting && n < |w| {
      assert w[..n + 1] == w[..n] + [w[n]];
    }
  }

  /** The starting state is consistent for any non-empty list of words. */
  lemma StartIsConsistent(words: seq<string>)
    requires |words| > 0
    ensures Consistent(words, Start)
  {
  }

  /** `n` ticks from `s`. */
  function Run(words: seq<string>, s: TypeState, n: nat): (r: TypeState)
    requires s.wordIndex < |words|
    ensures r.wordIndex < |words|
    decreases n
  {
    if n == 0 then s else Run(words, Step(words, s), n - 1)
  }

  lemma {:induction false} RunAdds(words: seq<string>, s: TypeState, a: nat, b: nat)
    requires s.wordIndex < |words|
    ensures Run(words, s, a + b) == Run(words, Run(words, s, a), b)
    decreases a
  {
    if a > 0 {
      RunAdds(words, Step(words, s), a - 1, b);
    }
  }

  /** Consistency holds after any number of ticks. */
  lemma {:induction false} RunKeepsConsistent(words: seq<string>, s: TypeState, n: nat)
    requires Consistent(words, s)
    ensures Consistent(words, Run(words, s, n))
    decreases n
  {
    if n > 0 {
      StepKeepsConsistent(words, s);
      RunKeepsConsistent(words, Step(words, s), n - 1);
    }
  }

  /** Typing: `k` ticks after a word starts, its first `k` characters show. */
  lemma {:induction false} TypingShowsPrefix(words: seq<string>, i: nat, k: nat)
    requires i < |words| && k <= |words[i]|
    ensures Run(words, TypeState("", i, false), k) == TypeState(words[i][..k], i, false)
  {
    if k > 0 {
      TypingShowsPrefix(words, i, k - 1);
      RunAdds(words, TypeState("", i, false), k - 1, 1);
    }
  }

  /** Deleting: `k` ticks after deletion starts, `k` characters are gone. */
  lemma {:induction false} DeletingShortens(words: seq<string>, i: nat, k: nat)
    requires i < |words| && k <= |words[i]|
    ensures Run(words, TypeState(words[i], i, true), k) == TypeState(words[i][..|words[i]| - k], i, true)
  {
    if k > 0 {
      DeletingShortens(words, i, k - 1);
      RunAdds(words, TypeState(words[i], i, true), k - 1, 1);
      var w := words[i];
      assert w[..|w| - (k - 1)][..|w| - k] == w[..|w| - k];
    }
  }

  /** A whole word takes 2 * |word| + 2 ticks: typed, switched to deleting,
      deleted, and then the next word (cyclically) starts from nothing. */
  lemma WordCycle(words: seq<string>, i: nat)
    requires i < |words|
    ensures var n := |words[i]|;
      Run(words, TypeState("", i, false), 2 * n + 2) == TypeState("", (i + 1) % |words|, false)
  {
    var w := words[i];
    var n := |w|;
    var s0 := TypeState("", i, false);
    TypingShowsPrefix(words, i, n);
    assert w[..n] == w;
    RunAdds(words, s0, n, 1);
    DeletingShortens(words, i, n);
    RunAdds(words, s0, n + 1, n);
    RunAdds(words, s0, 2 * n + 1, 1);
  }

  /** The hook, one tick at a time. */
  class TypewriterHook {
    const words: seq<string>
    var displayText: string
    var wordIndex: nat
    var isDeleting: bool

    function State(): TypeState
      reads this
    {
      TypeState(displayText, wordIndex, isDeleting)
    }

    ghost predicate Valid()
      reads this
    {
      Consistent(words, State())
    }

    constructor (ws: seq<string>)
      requires |ws| > 0
      ensures words == ws && State() == Start && Valid()
    {
      words := ws;
      displayText := "";
      wordIndex := 0;
      isDeleting := false;
    }

    /** The timeout callback. */
    method Tick()
      requires Valid()
      modifies this
      ensures State() == Step(words, old(State())) && Valid()
    {
      StepKeepsConsistent(words, State());
      var currentWord := words[wordIndex];
      if !isDeleting {
        if |displayText| < |currentWord| {
          displayText := currentWord[..|displayText| + 1];
        } else {
          isDeleting := true;
        }
      } else {
        if |displayText| > 0 {
          displayText := displayText[..|displayText| - 1];
        } else {
          isDeleting := false;
          wordIndex := (wordIndex + 1) % |words|;
        }
      }
    }
  }
}
