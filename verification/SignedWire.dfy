/** Signed messages between the wire and the local store. */
module SignedWire {
  import opened Common
  import opened Projection

  datatype Wire = Wire(channel: Id, id: Id, authorPeer: Peer, author: Text, content: Text, timestamp: real, signature: Text)

  /** `signedToLocal`; the stored creation time is a whole number of milliseconds. */
  function SignedToLocal(w: Wire): Message {
    Message(Signed(w.channel, w.id, w.author, w.content, Clip(w.timestamp), Some(w.authorPeer), Some(w.signature)),
            None, None, None, None, None, None, map[])
  }

  /** `localToSignedWire`: unsigned messages are not served. */
  function LocalToSignedWire(m: Message): Option<Wire> {
    var s := m.signed;
    if s.authorPeer.None? || s.signature.None? then None
    else Some(Wire(s.channel, s.id, s.authorPeer.value, s.author, s.content, s.createdAt as real, s.signature.value))
  }

  /** A message projected again and again with arbitrary event lists. */
  function ProjectAll(m: Message, lists: seq<seq<Event>>): Message {
    if lists == [] then m else Project(ProjectAll(m, lists[..|lists| - 1]), lists[|lists| - 1])
  }

  lemma {:induction false} ProjectAllKeepsSigned(m: Message, lists: seq<seq<Event>>)
    ensures ProjectAll(m, lists).signed == m.signed
  {
    if lists != [] {
      ProjectAllKeepsSigned(m, lists[..|lists| - 1]);
      ProjectIsLastWriter(ProjectAll(m, lists[..|lists| - 1]), lists[|lists| - 1], ReplyTo);
    }
  }

  predicate WholeMilliseconds(w: Wire) { w.timestamp == w.timestamp.Floor as real }

  lemma ClipIsExactOnIntegers(t: real)
    ensures Clip(t) as real == t <==> t == t.Floor as real
  {
    if t < 0.0 && t == t.Floor as real {
      assert (-t).Floor == -(t.Floor);
    }
    if t < 0.0 && Clip(t) as real == t {
      assert t == (-((-t).Floor)) as real;
    }
  }

  /**
    A signed message that was stored, projected any number of times and served again is the message that arrived
    if and only if its timestamp was whole; otherwise its canonical text, which holds the timestamp, has changed.
  */
  lemma {:induction false} SignedContentSurvives(w: Wire, lists: seq<seq<Event>>)
    ensures LocalToSignedWire(ProjectAll(SignedToLocal(w), lists)) == Some(w.(timestamp := Clip(w.timestamp) as real))
    ensures LocalToSignedWire(ProjectAll(SignedToLocal(w), lists)) == Some(w) <==> WholeMilliseconds(w)
  {
    ProjectAllKeepsSigned(SignedToLocal(w), lists);
    ClipIsExactOnIntegers(w.timestamp);
  }

  lemma FractionIsLost()
    ensures exists w: Wire :: LocalToSignedWire(SignedToLocal(w)).Some? && LocalToSignedWire(SignedToLocal(w)) != Some(w)
  {
    var w := Wire(0, 0, 0, [], [], 1.5, []);
    assert Clip(w.timestamp) == 1;
    assert LocalToSignedWire(SignedToLocal(w)).value.timestamp == 1.0;
  }
}
