/** The rotating status line of the loading spinner (components/LoadingSpinner.tsx). */
module LoadingSpinner {
  import opened Seqs

  const Messages: seq<string> := [
    "Consulting the cinematic cosmos...",
    "Analyzing awesome adventures...",
    "Brewing up brilliant book suggestions...",
    "Unlocking legendary game lore...",
    "Curating your next obsession...",
    "Just a moment, finding something amazing..."
  ]

  lemma MessagesDistinct()
    ensures |Messages| == 6 && Distinct(Messages)
  {
    assert Messages[0][0] == 'C' && Messages[1][0] == 'A' && Messages[2][0] == 'B';
    assert Messages[3][0] == 'U' && Messages[4][0] == 'C' && Messages[5][0] == 'J';
    assert Messages[0][1] == 'o' && Messages[4][1] == 'u';
  }

  /** The updater over a message list: the entry after `prev`, wrapping around. */
  function NextIn(ms: seq<string>, prev: string): (r: string)
    requires |ms| > 0
    ensures r in ms
  {
    var i := IndexOf(ms, prev);
    ms[(i + 1) % |ms|]
  }

  /** The interval's updater for the spinner's own list. */
  function NextMessage(prev: string): (r: string)
    ensures r in Messages
  {
    NextIn(Messages, prev)
  }

  /** In a list without repeats, the entry after the i-th is the (i+1) mod length-th. */
  lemma NextInAt(ms: seq<string>, i: int)
    requires Distinct(ms) && 0 <= i < |ms|
    ensures NextIn(ms, ms[i]) == ms[(i + 1) % |ms|]
  {
    IndexOfDistinct(ms, i);
  }

  /** The position after `i` in a list of length `k`, wrapping around. */
  function Succ(i: int, k: int): (r: int)
    requires 0 <= i < k
    ensures 0 <= r < k && r == (i + 1) % k
  {
    if i + 1 == k then 0 else i + 1
  }

  /** The position reached from `i` after `ticks` steps. */
  function Advance(i: int, ticks: nat, k: int): (r: int)
    requires 0 <= i < k
    ensures 0 <= r < k
  {
    if ticks == 0 then i else Succ(Advance(i, ticks - 1, k), k)
  }

  /** The entry after `ticks` updates starting from `m`. */
  function RotatedIn(ms: seq<string>, m: string, ticks: nat): string
    requires |ms| > 0
  {
    if ticks == 0 then m else NextIn(ms, RotatedIn(ms, m, ticks - 1))
  }

  lemma {:induction false} RotatedInFrom(ms: seq<string>, i: int, ticks: nat)
    requires Distinct(ms) && 0 <= i < |ms|
    ensures RotatedIn(ms, ms[i], ticks) == ms[Advance(i, ticks, |ms|)]
  {
    if ticks > 0 {
      RotatedInFrom(ms, i, ticks - 1);
      NextInAt(ms, Advance(i, ticks - 1, |ms|));
    }
  }

  lemma {:induction false} AdvanceBySix(i: int, ticks: nat)
    requires 0 <= i < 6
    ensures Advance(i, ticks, 6) == (i + ticks) % 6
  {
    if ticks == 0 {
      assert i % 6 == i;
    } else {
      AdvanceBySix(i, ticks - 1);
      ModStep6(i + ticks - 1);
    }
  }

  lemma ModStep6(n: nat)
    ensures (n % 6 + 1) % 6 == (n + 1) % 6
  {
  }

  /** From the i-th message the spinner moves to the (i+1) mod 6-th. */
  lemma NextOfIndex(i: int)
    requires 0 <= i < |Messages|
    ensures NextMessage(Messages[i]) == Messages[(i + 1) % 6]
  {
    MessagesDistinct();
    NextInAt(Messages, i);
  }

  /** The last message wraps around to the first. */
  lemma LastWrapsToFirst()
    ensures NextMessage(Messages[5]) == Messages[0]
  {
    NextOfIndex(5);
  }

  /** A message that is not in the list (`indexOf` gives -1) is followed by the first one. */
  lemma UnknownRestarts(m: string)
    requires m !in Messages
    ensures NextMessage(m) == Messages[0]
  {
  }

  /** After any number of ticks from the i-th message the spinner shows the (i+ticks) mod 6-th. */
  lemma RotatedFrom(i: int, ticks: nat)
    requires 0 <= i < |Messages|
    ensures RotatedIn(Messages, Messages[i], ticks) == Messages[(i + ticks) % 6]
  {
    MessagesDistinct();
    RotatedInFrom(Messages, i, ticks);
    AdvanceBySix(i, ticks);
  }

  /** Six ticks bring every message back. */
  lemma SixTicksReturn(i: int)
    requires 0 <= i < |Messages|
    ensures RotatedIn(Messages, Messages[i], 6) == Messages[i]
  {
    SixIsFullTurn(i);
    RotatedFrom(i, 6);
  }

  lemma SixIsFullTurn(i: int)
    requires 0 <= i < 6
    ensures (i + 6) % 6 == i
  {
  }

  /** The spinner's `message` state, advanced by each interval tick. */
  class Spinner {
    var message: string

    constructor ()
      ensures message == Messages[0]
    {
      message := Messages[0];
    }

    method Tick()
      modifies this
      ensures message == NextMessage(old(message))
      ensures message in Messages
    {
      message := NextMessage(message);
    }
  }
}
