/**
 * Message framing of the receiver (Receiver.run): datagrams carry UTF-8 text
 * fragments; empty fragments are skipped, the fragment "MessageFinished" ends
 * the message, and every other fragment is appended to an accumulator.
 */
module Framing {
  import opened Wrappers

  const Terminator: string := "MessageFinished"

  /** Concatenation of all fragments. */
  function Concat(fs: seq<string>): string
  {
    if fs == [] then "" else fs[0] + Concat(fs[1..])
  }

  lemma {:induction false} ConcatAppend(a: seq<string>, b: seq<string>)
    ensures Concat(a + b) == Concat(a) + Concat(b)
    decreases |a|
  {
    if a != [] {
      assert (a + b)[0] == a[0];
      assert (a + b)[1..] == a[1..] + b;
      ConcatAppend(a[1..], b);
      calc {
        Concat(a + b);
        a[0] + Concat(a[1..] + b);
        a[0] + (Concat(a[1..]) + Concat(b));
        (a[0] + Concat(a[1..])) + Concat(b);
      }
    } else {
      assert a + b == b;
    }
  }

  /** Position of the first terminator fragment. */
  function TerminatorIndex(fs: seq<string>): (i: nat)
    requires Terminator in fs
    ensures i < |fs| && fs[i] == Terminator && Terminator !in fs[..i]
  {
    if fs[0] == Terminator then 0
    else
      var j := TerminatorIndex(fs[1..]);
      assert fs[..j + 1] == [fs[0]] + fs[1..][..j];
      j + 1
  }

  /** One framed message: the accumulated text and the fragments after the terminator. */
  datatype Framed = Framed(message: string, rest: seq<string>)

  /** The inner `while True` loop: consume fragments until the terminator. */
  function Frame(fs: seq<string>): (r: Option<Framed>)
    ensures r.None? <==> Terminator !in fs
  {
    if fs == [] then None
    else if fs[0] == "" then Frame(fs[1..])
    else if fs[0] == Terminator then Some(Framed("", fs[1..]))
    else
      match Frame(fs[1..])
      case None => None
      case Some(f) => Some(Framed(fs[0] + f.message, f.rest))
  }

  /** The framed message is the concatenation of every fragment before the first terminator. */
  lemma {:induction false} FrameIsConcatBeforeTerminator(fs: seq<string>)
    requires Terminator in fs
    ensures var i := TerminatorIndex(fs);
      Frame(fs) == Some(Framed(Concat(fs[..i]), fs[i + 1..]))
  {
    var i := TerminatorIndex(fs);
    if fs[0] != Terminator {
      var j := i - 1;
      assert TerminatorIndex(fs[1..]) == j;
      FrameIsConcatBeforeTerminator(fs[1..]);
      assert Concat(fs[..i]) == fs[0] + Concat(fs[1..][..j]) by {
        assert fs[..i][0] == fs[0];
        assert fs[..i][1..] == fs[1..][..j];
      }
      assert fs[i + 1..] == fs[1..][j + 1..];
      if fs[0] == "" {
        assert Concat(fs[..i]) == Concat(fs[1..][..j]);
      }
    } else {
      assert fs[..i] == [];
    }
  }

  /** Fragment boundaries do not matter: two splittings of the same text frame the same message. */
  lemma FragmentationInvariant(a: seq<string>, b: seq<string>, rest: seq<string>)
    requires Terminator !in a && Terminator !in b && Concat(a) == Concat(b)
    ensures Frame(a + [Terminator] + rest) == Frame(b + [Terminator] + rest)
    ensures Frame(a + [Terminator] + rest) == Some(Framed(Concat(a), rest))
  {
    TerminatorAfter(a, rest);
    TerminatorAfter(b, rest);
  }

  /** Cutting one fragment `x + y` into the two fragments `x` and `y` frames the same message. */
  lemma SplitFragmentFramesSame(pre: seq<string>, x: string, y: string, rest: seq<string>)
    requires Terminator !in pre && x != Terminator && y != Terminator && x + y != Terminator
    ensures Frame(pre + [x + y] + [Terminator] + rest) == Frame(pre + [x, y] + [Terminator] + rest)
    ensures Frame(pre + [x, y] + [Terminator] + rest) == Some(Framed(Concat(pre) + x + y, rest))
  {
    assert [x, y][1..] == [y] && [y][1..] == [] && [x + y][1..] == [];
    assert Concat([x, y]) == x + y == Concat([x + y]);
    ConcatAppend(pre, [x + y]);
    ConcatAppend(pre, [x, y]);
    assert Concat(pre) + (x + y) == Concat(pre) + x + y;
    assert Terminator !in pre + [x + y] && Terminator !in pre + [x, y];
    FragmentationInvariant(pre + [x + y], pre + [x, y], rest);
  }

  lemma TerminatorAfter(a: seq<string>, rest: seq<string>)
    requires Terminator !in a
    ensures Frame(a + [Terminator] + rest) == Some(Framed(Concat(a), rest))
  {
    var fs := a + [Terminator] + rest;
    assert fs[|a|] == Terminator;
    assert fs[..|a|] == a;
    var i := TerminatorIndex(fs);
    assert forall j :: 0 <= j < |a| ==> fs[j] == a[j];
    assert i >= |a| ==> fs[..i + 1][|a|] == Terminator;
    assert i == |a|;
    FrameIsConcatBeforeTerminator(fs);
    assert fs[|a| + 1..] == rest;
  }

  /** One receive of the socket: a datagram's text, or the 3-second timeout (an OSError). */
  datatype Packet = Datagram(text: string) | Timeout

  /** Datagrams carrying the given fragments. */
  function Datagrams(fs: seq<string>): (ps: seq<Packet>)
    ensures |ps| == |fs|
    ensures forall i :: 0 <= i < |fs| ==> ps[i] == Datagram(fs[i])
  {
    if fs == [] then [] else [Datagram(fs[0])] + Datagrams(fs[1..])
  }

  /**
   * The messages the receive loop completes, in order, when `acc` has already
   * been accumulated. A timeout leaves the inner loop through the OSError
   * handler, so the outer loop starts again with an empty accumulator.
   */
  function Messages(acc: string, ps: seq<Packet>): seq<string>
    decreases |ps|
  {
    if ps == [] then []
    else match ps[0]
      case Timeout => Messages("", ps[1..])
      case Datagram(t) =>
        if t == "" then Messages(acc, ps[1..])
        else if t == Terminator then [acc] + Messages("", ps[1..])
        else Messages(acc + t, ps[1..])
  }

  /** The number of terminator datagrams among the packets. */
  function Terminators(ps: seq<Packet>): nat
    decreases |ps|
  {
    if ps == [] then 0 else (if ps[0] == Datagram(Terminator) then 1 else 0) + Terminators(ps[1..])
  }

  /** The receive loop delivers exactly one message per terminator datagram, whatever else arrives. */
  lemma {:induction false} OneMessagePerTerminator(acc: string, ps: seq<Packet>)
    ensures |Messages(acc, ps)| == Terminators(ps)
    decreases |ps|
  {
    if ps != [] {
      match ps[0]
      case Timeout => OneMessagePerTerminator("", ps[1..]);
      case Datagram(t) =>
        if t == "" {
          OneMessagePerTerminator(acc, ps[1..]);
        } else if t == Terminator {
          OneMessagePerTerminator("", ps[1..]);
        } else {
          OneMessagePerTerminator(acc + t, ps[1..]);
        }
    }
  }

  /** One step of the receive loop on a datagram. */
  lemma MessagesOnDatagram(acc: string, t: string, rest: seq<Packet>)
    ensures Messages(acc, [Datagram(t)] + rest) ==
      if t == "" then Messages(acc, rest)
      else if t == Terminator then [acc] + Messages("", rest)
      else Messages(acc + t, rest)
  {
    assert ([Datagram(t)] + rest)[1..] == rest;
  }

  /**
   * The receive loop follows the framer: over a run of datagrams it delivers the
   * framed message (after what was already accumulated) and continues after the
   * terminator; without a terminator it only grows the accumulator.
   */
  lemma {:induction false} MessagesFollowFrame(acc: string, fs: seq<string>, tail: seq<Packet>)
    ensures Frame(fs).Some? ==>
      Messages(acc, Datagrams(fs) + tail) ==
        [acc + Frame(fs).value.message] + Messages("", Datagrams(Frame(fs).value.rest) + tail)
    ensures Frame(fs).None? ==>
      Messages(acc, Datagrams(fs) + tail) == Messages(acc + Concat(fs), tail)
    decreases |fs|
  {
    if fs == [] {
      assert Datagrams(fs) + tail == tail;
      assert acc + Concat(fs) == acc;
    } else {
      var t := fs[0];
      assert Datagrams(fs) + tail == [Datagram(t)] + (Datagrams(fs[1..]) + tail);
      MessagesOnDatagram(acc, t, Datagrams(fs[1..]) + tail);
      if t == "" {
        MessagesFollowFrame(acc, fs[1..], tail);
        assert Concat(fs) == Concat(fs[1..]);
      } else if t == Terminator {
        assert acc + "" == acc;
      } else {
        MessagesFollowFrame(acc + t, fs[1..], tail);
        var f := Frame(fs[1..]);
        if f.Some? {
          assert acc + t + f.value.message == acc + (t + f.value.message);
        } else {
          assert acc + t + Concat(fs[1..]) == acc + Concat(fs);
        }
      }
    }
  }

  /** An empty datagram anywhere changes nothing that the receive loop delivers. */
  lemma {:induction false} EmptyDatagramIgnored(acc: string, pre: seq<Packet>, post: seq<Packet>)
    ensures Messages(acc, pre + [Datagram("")] + post) == Messages(acc, pre + post)
    decreases |pre|
  {
    if pre == [] {
      assert pre + [Datagram("")] + post == [Datagram("")] + post;
      assert ([Datagram("")] + post)[1..] == post;
      assert pre + post == post;
    } else {
      var x := pre + [Datagram("")] + post;
      var y := pre + post;
      assert x[0] == pre[0] == y[0];
      assert x[1..] == pre[1..] + [Datagram("")] + post;
      assert y[1..] == pre[1..] + post;
      match pre[0]
      case Timeout => EmptyDatagramIgnored("", pre[1..], post);
      case Datagram(t) =>
        var next := if t == "" then acc else if t == Terminator then "" else acc + t;
        EmptyDatagramIgnored(next, pre[1..], post);
    }
  }

  /** A message sent as fragments followed by the terminator is delivered whole, exactly once. */
  lemma SingleMessageDelivered(fs: seq<string>)
    requires Terminator !in fs
    ensures Messages("", Datagrams(fs + [Terminator])) == [Concat(fs)]
  {
    TerminatorAfter(fs, []);
    assert fs + [Terminator] == fs + [Terminator] + [];
    MessagesFollowFrame("", fs + [Terminator], []);
    assert Datagrams(fs + [Terminator]) + [] == Datagrams(fs + [Terminator]);
    assert Datagrams([]) + [] == [];
    assert Messages("", []) == [];
    assert "" + Concat(fs) == Concat(fs);
  }

  /** A timeout in the middle of a message discards everything accumulated for it. */
  lemma TimeoutDiscardsPartial(acc: string, fs: seq<string>, tail: seq<Packet>)
    requires Terminator !in fs
    ensures Messages(acc, Datagrams(fs) + [Timeout] + tail) == Messages("", tail)
  {
    MessagesFollowFrame(acc, fs, [Timeout] + tail);
    assert Datagrams(fs) + [Timeout] + tail == Datagrams(fs) + ([Timeout] + tail);
    assert ([Timeout] + tail)[1..] == tail;
  }
}
