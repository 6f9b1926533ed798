/** What either side goes by, input after input, while the rest of the world goes on. */
module Turns {
  import opened Bytes
  import opened Crypto
  import opened Packets
  import opened Splitter
  import opened Transport

  /**
   One input, with what an answer to it would meet: the attestation and the fresh names
   it would use, and how its write would turn out. A host has no attestation to present
   and draws the encapsulation only.
   */
  datatype Event = Event(input: Input, attest: Bytes, eph: Key, encap: Encap, write: Write)

  /** An input nothing is drawn or written for. */
  function Plain(input: Input): Event {
    Event(input, [], 0, 0, Whole)
  }

  /** What goes on elsewhere before a read: bytes that arrive, and what others draw, sign and seal. */
  datatype Interlude = Interlude(arrived: Bytes, others: Growth)

  const Nothing := Interlude([], Growth({}, {}, {}, map[]))

  datatype Turn = Turn(meanwhile: Interlude, ev: Event)

  function InputsOf(turns: seq<Turn>): (ins: seq<Input>)
    ensures |ins| == |turns|
  {
    seq(|turns|, i requires 0 <= i < |turns| => turns[i].ev.input)
  }

  function Arrivals(turns: seq<Turn>): Bytes {
    if turns == [] then [] else Arrivals(turns[..|turns| - 1]) + turns[|turns| - 1].meanwhile.arrived
  }

  /** The unconsumed bytes after these turns, each of which takes the next input of what is there by then. */
  function Feed(max: nat, s: Bytes, turns: seq<Turn>): Option<Bytes> {
    if turns == [] then Some(s)
    else
      var last := turns[|turns| - 1];
      match Feed(max, s, turns[..|turns| - 1])
      case None => None
      case Some(mid) =>
        match NextInput(max, mid + last.meanwhile.arrived)
        case None => None
        case Some((input, rest)) => if input == last.ev.input then Some(rest) else None
  }

  lemma FeedSnoc(max: nat, s: Bytes, turns: seq<Turn>, turn: Turn)
    ensures InputsOf(turns + [turn]) == InputsOf(turns) + [turn.ev.input]
    ensures Feed(max, s, turns).Some? ==>
              match NextInput(max, Feed(max, s, turns).value + turn.meanwhile.arrived)
              case None => Feed(max, s, turns + [turn]) == None
              case Some((input, rest)) =>
                Feed(max, s, turns + [turn]) == if input == turn.ev.input then Some(rest) else None
  {
    assert (turns + [turn])[..|turns|] == turns;
  }

  /** The world after these turns of a side that adds nothing to it itself. */
  function Later(w: World, turns: seq<Turn>): World {
    if turns == [] then w else Grown(Later(w, turns[..|turns| - 1]), turns[|turns| - 1].meanwhile.others)
  }

  lemma LaterAt(w: World, turns: seq<Turn>, n: nat)
    requires n < |turns|
    ensures Later(w, turns[..n + 1]) == Grown(Later(w, turns[..n]), turns[n].meanwhile.others)
  {
    assert turns[..n + 1][..n] == turns[..n];
  }

  // -------------------------------------------------- when bytes arrive is no matter

  lemma {:induction false} NextFrameWithMore(max: nat, s: Bytes, more: Bytes)
    requires NextFrame(max, s).Some?
    ensures var (frame, rest) := NextFrame(max, s).value; NextFrame(max, s + more) == Some((frame, rest + more))
    decreases |s|
  {
    var piece, rest, all := UnconsAppend(s, more);
    NextOfFirst(max, s, piece, rest);
    NextOfFirst(max, s + more, piece, all);
    if |piece| > max {
      NextFrameWithMore(max, rest, more);
    }
  }

  lemma {:induction false} TakeWithMore(max: nat, s: Bytes, n: nat, more: Bytes)
    requires Take(max, s, n).Some?
    ensures var (ins, rest) := Take(max, s, n).value; Take(max, s + more, n) == Some((ins, rest + more))
    decreases n
  {
    if n > 0 {
      TakeWithMore(max, s, n - 1, more);
      NextFrameWithMore(max, Take(max, s, n - 1).value.1, more);
    }
  }

  /** Turn by turn or all at once: the inputs are those of all bytes that were there or arrived. */
  lemma {:induction false} FeedTakes(max: nat, s: Bytes, turns: seq<Turn>)
    requires Feed(max, s, turns).Some?
    ensures Take(max, s + Arrivals(turns), |turns|) == Some((InputsOf(turns), Feed(max, s, turns).value))
    decreases |turns|
  {
    if turns == [] {
      assert s + Arrivals(turns) == s;
    } else {
      var init, last := turns[..|turns| - 1], turns[|turns| - 1];
      FeedTakes(max, s, init);
      Regroup(s, Arrivals(init), last.meanwhile.arrived);
      TakeWithMore(max, s + Arrivals(init), |init|, last.meanwhile.arrived);
      assert InputsOf(turns) == InputsOf(init) + [last.ev.input];
    }
  }
}
