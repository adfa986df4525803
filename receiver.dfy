/**
 * The background receiver (class Receiver in the add-on): its `data` field and
 * the `threading.Event` it shares with the timer handler form a single-slot
 * mailbox. Decoding (`json.loads`) is the caller-supplied `parse`.
 */
module Receiver {
  import opened Wrappers
  import opened Framing

  /** The shared state: the event flag and the last decoded job. */
  datatype Slot<J> = Slot(pending: bool, data: Option<J>)

  /**
   * What the receiver does with one completed message: the event is set first,
   * then `data` takes the decoded job; when decoding fails the assignment never
   * happens and `data` keeps the previous job.
   */
  function Published<J>(s: Slot<J>, message: string, parse: string -> Option<J>): (r: Slot<J>)
    ensures r.pending
    ensures parse(message).Some? ==> r.data == parse(message)
    ensures parse(message).None? ==> r.data == s.data
  {
    Slot(true, if parse(message).Some? then parse(message) else s.data)
  }

  /**
   * The mailbox after the receive thread publishes several messages in order.
   * A message that fails to decode ends the thread: the `json.JSONDecodeError`
   * is not an `OSError` or an `EOFError`, and evaluating the third handler's
   * `zlib.error` raises a `NameError` (the module is never imported), which
   * leaves `run`. Later messages are never published.
   */
  function PublishAll<J>(s: Slot<J>, ms: seq<string>, parse: string -> Option<J>): (r: Slot<J>)
    ensures r.pending <==> s.pending || ms != []
    ensures ms == [] ==> r == s
    decreases |ms|
  {
    if ms == [] then s
    else if parse(ms[0]).None? then Published(s, ms[0], parse)
    else PublishAll(Published(s, ms[0], parse), ms[1..], parse)
  }

  /** The longest run of messages from the front that all decode. */
  function Decodable<J>(ms: seq<string>, parse: string -> Option<J>): (r: seq<string>)
    ensures |r| <= |ms| && r == ms[..|r|]
    ensures forall k :: 0 <= k < |r| ==> parse(r[k]).Some?
    ensures |r| < |ms| ==> parse(ms[|r|]).None?
    decreases |ms|
  {
    if ms == [] || parse(ms[0]).None? then []
    else [ms[0]] + Decodable(ms[1..], parse)
  }

  /**
   * Latest wins: after any run of messages the flag is set iff it was set or
   * a message arrived, and `data` is the job of the last message before the
   * first one that fails to decode (the previous job when there is none);
   * an undrained older job is lost.
   */
  lemma {:induction false} PublishAllLatestWins<J>(s: Slot<J>, ms: seq<string>, parse: string -> Option<J>)
    ensures var d := Decodable(ms, parse);
      PublishAll(s, ms, parse) == Slot(s.pending || ms != [], if d == [] then s.data else parse(d[|d| - 1]))
    decreases |ms|
  {
    if ms != [] && parse(ms[0]).Some? {
      var s1 := Published(s, ms[0], parse);
      PublishAllLatestWins(s1, ms[1..], parse);
      var d1 := Decodable(ms[1..], parse);
      assert Decodable(ms, parse) == [ms[0]] + d1;
    }
  }

  /** Nothing after a message that fails to decode reaches the mailbox. */
  lemma MalformedStopsReceiving<J>(s: Slot<J>, bad: string, later: seq<string>, parse: string -> Option<J>)
    requires parse(bad).None?
    ensures PublishAll(s, [bad] + later, parse) == Slot(true, s.data)
  {
  }

  /** A message that fails to decode still raises the flag and leaves the previous job in place. */
  lemma MalformedKeepsPrevious<J>(s: Slot<J>, message: string, parse: string -> Option<J>)
    requires parse(message).None?
    ensures Published(s, message, parse) == Slot(true, s.data)
  {
  }

  class Receiver<J> {
    /** `self.data`: the last decoded job, `None` before the first one. */
    var data: Option<J>
    /** Whether the shared `threading.Event` is set. */
    var pending: bool

    function State(): Slot<J>
      reads this
    {
      Slot(pending, data)
    }

    /** `Receiver.__init__`: no job yet and a fresh, cleared event. */
    constructor ()
      ensures State() == Slot(false, None)
    {
      data := None;
      pending := false;
    }

    /** Lines 66-67: `self.event.set()` and then `self.data = json.loads(data_string)`. */
    method Publish(message: string, parse: string -> Option<J>) returns (decoded: bool)
      modifies this
      ensures State() == Published(old(State()), message, parse)
      ensures decoded <==> parse(message).Some?
    {
      pending := true;
      var job := parse(message);
      decoded := job.Some?;
      if decoded {
        data := job;
      }
    }

    /**
     * The receive loop until the receiver is stopped, over the packets the
     * socket yields meanwhile: each completed message is published in turn,
     * and the thread ends after the first one that fails to decode.
     */
    method Run(packets: seq<Packet>, parse: string -> Option<J>)
      modifies this
      ensures State() == PublishAll(old(State()), Messages("", packets), parse)
    {
      var i := 0;
      while i < |packets|
        invariant i <= |packets|
        decreases |packets| - i
        invariant PublishAll(State(), Messages("", packets[i..]), parse) ==
                  PublishAll(old(State()), Messages("", packets), parse)
      {
        var dataString := "";
        var finished, timedOut := false, false;
        ghost var start, snapshot := i, State();
        while !finished && !timedOut && i < |packets|
          invariant start <= i <= |packets|
          invariant State() == snapshot
          invariant (finished || timedOut) ==> start < i
          invariant Messages("", packets[start..]) ==
            if finished then [dataString] + Messages("", packets[i..])
            else if timedOut then Messages("", packets[i..])
            else Messages(dataString, packets[i..])
          invariant finished ==> !timedOut
          decreases |packets| - i, !finished && !timedOut
        {
          assert packets[i..] == [packets[i]] + packets[i + 1..];
          match packets[i] {
            case Timeout =>
              timedOut := true;
            case Datagram(text) =>
              MessagesOnDatagram(dataString, text, packets[i + 1..]);
              if text != "" {
                if text == Terminator {
                  finished := true;
                } else {
                  dataString := dataString + text;
                }
              }
          }
          i := i + 1;
        }
        if finished {
          ghost var before := State();
          var decoded := Publish(dataString, parse);
          if !decoded {
            return;
          }
          assert ([dataString] + Messages("", packets[i..]))[1..] == Messages("", packets[i..]);
          assert ([dataString] + Messages("", packets[i..]))[0] == dataString;
          assert PublishAll(before, [dataString] + Messages("", packets[i..]), parse) ==
                 PublishAll(State(), Messages("", packets[i..]), parse);
        } else if !timedOut {
          assert packets[i..] == [];
          assert Messages(dataString, packets[i..]) == [];
          assert Messages("", packets[i..]) == [];
        }
      }
    }
  }
}
