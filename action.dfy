/** Application-level intents: the result of mapping an event, and the only
    way application state is changed. */
module Actions {

  datatype Action = Tick | Render | Quit

  /** Number of `Quit` actions in `s`, counted from the back so that
      appending one action adds at most one. */
  function CountQuit(s: seq<Action>): (n: nat)
    ensures n <= |s|
    ensures n == 0 <==> Quit !in s
  {
    if s == [] then 0
    else
      var init := s[..|s| - 1];
      CountQuit(init) + (if s[|s| - 1] == Quit then 1 else 0)
  }

  /** Counting distributes over concatenation. */
  lemma {:induction false} CountQuitAppend(s: seq<Action>, t: seq<Action>)
    ensures CountQuit(s + t) == CountQuit(s) + CountQuit(t)
  {
    if t != [] {
      var init := t[..|t| - 1];
      assert (s + t)[..|s + t| - 1] == s + init;
      CountQuitAppend(s, init);
    } else {
      assert s + t == s;
    }
  }
}
