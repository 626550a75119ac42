/** References to one message: a peer reference, a colon, a message id. */
module MessageRefs {
  import opened Refs
  import opened Sequences
  import opened Text
  import opened Wrappers

  datatype MessageRef = MessageRef(peer: Ref, messageID: int)

  datatype MessageRefError = BadShape | BadID | BadPeer(error: RefError)

  function FormatMessageRef(peer: string, messageID: int): string { peer + ":" + FormatInt(messageID) }

  function MessageString(m: MessageRef): string { FormatMessageRef(String(m.peer), m.messageID) }

  /** The id is split off at the last colon, since the peer may hold colons itself. */
  function ParseMessageRef(s: string): Result<MessageRef, MessageRefError> {
    var i := AfterLast(s, ':');
    if i <= 1 || i == |s| then Err(BadShape)
    else
      var id := ParseInt(s[i..]);
      if id == None || id.value <= 0 then Err(BadID)
      else
        match ParseRef(s[..i - 1])
        case Ok(peer) => Ok(MessageRef(peer, id.value))
        case Err(e) => Err(BadPeer(e))
  }

  predicate WellFormedMessage(m: MessageRef) { WellFormed(m.peer) && 0 < m.messageID && InInt64(m.messageID) }

  lemma StringNotEmpty(r: Ref)
    ensures String(r) != ""
  {
  }

  lemma ParseAtLastColon(peer: string, id: string)
    requires peer != "" && id != "" && Lacks(id, ':')
    ensures ParseMessageRef(peer + ":" + id) ==
            if ParseInt(id) == None || ParseInt(id).value <= 0 then Err(BadID)
            else
              match ParseRef(peer)
              case Ok(p) => Ok(MessageRef(p, ParseInt(id).value))
              case Err(e) => Err(BadPeer(e))
  {
    var s := peer + ":" + id;
    AfterLastUnique(peer, id, ':');
    assert s[|peer| + 1..] == id && s[..|peer|] == peer;
  }

  /** A printed message reference is read back, whatever colons its peer has. */
  lemma MessageRoundTrip(m: MessageRef)
    requires WellFormedMessage(m)
    ensures ParseMessageRef(MessageString(m)) == Ok(m)
  {
    StringNotEmpty(m.peer);
    FormatIntLacks(m.messageID, ':');
    ParseFormat(m.messageID);
    RoundTrip(m.peer);
    ParseAtLastColon(String(m.peer), FormatInt(m.messageID));
  }

  /** Every accepted message reference is well-formed, so it is read back from its printed form. */
  lemma ParsePrintParse(s: string)
    ensures match ParseMessageRef(s)
      case Ok(m) => WellFormedMessage(m) && ParseMessageRef(MessageString(m)) == Ok(m)
      case Err(_) => true
  {
    match ParseMessageRef(s)
    case Ok(m) =>
      ParsedIsWellFormed(s[..AfterLast(s, ':') - 1]);
      MessageRoundTrip(m);
    case Err(_) =>
  }

  /** A text of the peer, a colon, a spelling of the id. */
  ghost predicate IsMessageText(s: string, m: MessageRef, peer: string, id: string) {
    s == peer + ":" + id && ParseRef(peer) == Ok(m.peer) && Spells(id, m.messageID)
  }

  lemma MessageTextRead(s: string, m: MessageRef) returns (peer: string, id: string)
    requires ParseMessageRef(s) == Ok(m)
    ensures 0 < m.messageID && InInt64(m.messageID) && IsMessageText(s, m, peer, id)
  {
    var i := AfterLast(s, ':');
    peer, id := s[..i - 1], s[i..];
    ParseIntReads(id, m.messageID);
    assert s[i - 1] == ':' && s == peer + ":" + id;
  }

  lemma MessageTextAccepted(s: string, m: MessageRef, peer: string, id: string)
    requires 0 < m.messageID && InInt64(m.messageID) && IsMessageText(s, m, peer, id)
    ensures ParseMessageRef(s) == Ok(m)
  {
    SpellingLacks(id, m.messageID, ':');
    ParseIntReads(id, m.messageID);
    ParseAtLastColon(peer, id);
  }

  /** The texts read as a message reference: any text read as its peer, a colon, any spelling of its id. */
  lemma ParseMessageReads(s: string, m: MessageRef)
    ensures ParseMessageRef(s) == Ok(m) <==>
            0 < m.messageID && InInt64(m.messageID) && exists peer, id :: IsMessageText(s, m, peer, id)
  {
    if ParseMessageRef(s) == Ok(m) {
      var peer, id := MessageTextRead(s, m);
    } else if 0 < m.messageID && InInt64(m.messageID) && exists peer, id :: IsMessageText(s, m, peer, id) {
      var peer, id :| IsMessageText(s, m, peer, id);
      MessageTextAccepted(s, m, peer, id);
    }
  }

  /** A text cut at its last colon, with something on both sides. */
  predicate Cut(s: string, peer: string, id: string) {
    s == peer + ":" + id && peer != "" && id != "" && Lacks(id, ':')
  }

  lemma CutRead(s: string, peer: string, id: string)
    requires Cut(s, peer, id)
    ensures ParseMessageRef(s) != Err(BadShape)
    ensures ParseMessageRef(s) == Err(BadID) <==> ParseInt(id) == None || ParseInt(id).value <= 0
    ensures ParseMessageRef(s).Err? && ParseMessageRef(s).error.BadPeer? ==>
              ParseRef(peer) == Err(ParseMessageRef(s).error.error)
  {
    ParseAtLastColon(peer, id);
  }

  /**
    What a refusal says: a wrong shape is a text that cannot be cut, a wrong id one whose last part spells no
    positive number, and a wrong peer carries the error of the part before it.
  */
  lemma MessageRefusalIsNamed(s: string)
    requires ParseMessageRef(s).Err?
    ensures ParseMessageRef(s) == Err(BadShape) <==> !exists peer, id :: Cut(s, peer, id)
    ensures forall peer, id :: Cut(s, peer, id) ==>
              match ParseMessageRef(s).error
              case BadShape => false
              case BadID => forall n :: n > 0 && InInt64(n) ==> !Spells(id, n)
              case BadPeer(e) => ParseRef(peer) == Err(e)
  {
    var i := AfterLast(s, ':');
    if ParseMessageRef(s) != Err(BadShape) {
      assert s == s[..i - 1] + ":" + s[i..];
      assert Cut(s, s[..i - 1], s[i..]);
    }
    forall peer, id | Cut(s, peer, id)
      ensures match ParseMessageRef(s).error
        case BadShape => false
        case BadID => forall n :: n > 0 && InInt64(n) ==> !Spells(id, n)
        case BadPeer(e) => ParseRef(peer) == Err(e)
    {
      CutRead(s, peer, id);
      forall n | n > 0 && InInt64(n) && ParseMessageRef(s) == Err(BadID) ensures !Spells(id, n) {
        ParseIntReads(id, n);
      }
    }
  }

  // ----- no direct peer reference is a message reference -----

  lemma {:induction false} SplitSnoc(a: string, b: string)
    requires Lacks(b, ':')
    ensures Split(a + ":" + b, ':') == Split(a, ':') + [b]
    decreases |a|
  {
    SplitOne(b, ':');
    var j := IndexOf(a, ':');
    if j == |a| {
      SplitCons(a, b, ':');
    } else {
      var a1, a2 := a[..j], a[j + 1..];
      assert a == a1 + ":" + a2;
      SplitSnoc(a2, b);
      SplitCons(a1, a2 + ":" + b, ':');
      Regroup(a1 + ":", a2 + ":", b);
      Regroup(a1 + ":", a2, ":");
      Regroup([a1], Split(a2, ':'), [b]);
    }
  }

  lemma SplitAtLast(s: string)
    requires AfterLast(s, ':') > 0
    ensures var i := AfterLast(s, ':'); Split(s, ':') == Split(s[..i - 1], ':') + [s[i..]]
  {
    var i := AfterLast(s, ':');
    var a, b := s[..i - 1], s[i..];
    assert Lacks(b, ':');
    assert s == a + ":" + b by { assert s[i - 1] == ':'; }
    SplitSnoc(a, b);
  }

  /** Losing its last part, a direct peer reference becomes one of the wrong shape. */
  lemma FrontIsNoPeer(parts: seq<string>)
    requires |parts| > 1 && NormalizePeerKind(parts[0]).Some?
    requires match ParsePeerParts(parts) case Some(r) => r.Ok? case None => false
    ensures match ParsePeerParts(parts[..|parts| - 1])
      case Some(r) => r.Err?
      case None => |parts| == 2
  {
  }

  lemma KindIsNoRef(k: string)
    requires NormalizePeerKind(k).Some?
    ensures ParseRef(k).Err?
  {
    var kinds := ["u", "user", "g", "group", "chat", "c", "channel"];
    assert k in kinds;
    assert Lacks(k, ':');
    NoColonNoPeer(k);
    NoLinkPrefix(k);
    assert k[0] in {'u', 'g', 'c'} && !IsDigit(k[0]);
  }

  /** What comes before the last colon of a direct peer reference is no peer reference. */
  lemma FrontRejected(s: string, front: string, last: string)
    requires StripTMePrefix(s) == None && !HasPrefix(s, "tg://") && front <= s
    requires Split(s, ':') == Split(front, ':') + [last]
    requires match ParsePeerRef(s) case Some(r) => r.Ok? case None => false
    ensures ParseRef(front).Err?
  {
    var parts, before := Split(s, ':'), Split(front, ':');
    assert parts[..|parts| - 1] == before && parts[0] == before[0];
    FrontIsNoPeer(parts);
    FrontNoLink(s, front);
    if ParsePeerRef(front) == None {
      SplitJoin(front, ':');
      KindIsNoRef(front);
    }
  }

  lemma PeerByParts(s: string)
    requires ParseRef(s).Ok? && ParseRef(s).value.kind == Peer
    ensures StripTMePrefix(s) == None && !HasPrefix(s, "tg://") && ParsePeerRef(s) == Some(ParseRef(s))
  {
    if ParsePeerRef(s) == None && s != "" { NameIsWellFormed(s); }
  }

  lemma FrontOfPeer(s: string)
    requires ParseRef(s).Ok? && ParseRef(s).value.kind == Peer && AfterLast(s, ':') > 0
    ensures ParseRef(s[..AfterLast(s, ':') - 1]).Err?
  {
    var i := AfterLast(s, ':');
    PeerByParts(s);
    SplitAtLast(s);
    FrontRejected(s, s[..i - 1], s[i..]);
  }

  /** A text read as a user, chat or channel by id is never also read as a message of another peer. */
  lemma PeerIsNoMessage(s: string)
    requires ParseRef(s).Ok? && ParseRef(s).value.kind == Peer
    ensures ParseMessageRef(s).Err?
  {
    if AfterLast(s, ':') > 1 { FrontOfPeer(s); }
  }

  lemma FrontNoLink(s: string, front: string)
    requires front <= s && StripTMePrefix(s) == None && !HasPrefix(s, "tg://")
    ensures StripTMePrefix(front) == None && !HasPrefix(front, "tg://")
  {
  }

  /** Links are the exception: this one is read as a peer and as a message. */
  lemma LinkMayBeMessage()
    ensures ParseRef("t.me/durov:5") == Ok(Plain(TMeLink, "durov:5"))
    ensures ParseMessageRef("t.me/durov:5") == Ok(MessageRef(Plain(TMeLink, "durov"), 5))
  {
    var m := MessageRef(Plain(TMeLink, "durov"), 5);
    assert FormatInt(5) == "5";
    assert MessageString(m) == "t.me/durov:5";
    MessageRoundTrip(m);
    assert "t.me/" + "durov:5" == "t.me/durov:5";
    LinkRoundTrip("durov:5");
  }

  /** Only links can be both: any other reference has no colon or is a direct peer reference. */
  lemma BothOnlyForLinks(s: string)
    requires ParseRef(s).Ok? && ParseMessageRef(s).Ok?
    ensures ParseRef(s).value.kind == TMeLink || ParseRef(s).value.kind == TGDeeplink
  {
    var kind := ParseRef(s).value.kind;
    if kind == Peer {
      PeerIsNoMessage(s);
    } else if kind != TMeLink && kind != TGDeeplink {
      NameHasNoColon(s);
    }
  }

  lemma NameHasNoColon(s: string)
    requires s != "" && ParseName(s).Ok?
    ensures Lacks(s, ':')
  {
    var tail := s[1..];
    assert s == [s[0]] + tail;
  }

  // ----- several message references of one peer -----

  datatype RefsError = NoRefs | BadRef(error: MessageRefError) | OtherPeer

  type Parsed = Result<MessageRef, MessageRefError>

  function ParseAll(raws: seq<string>): (ms: seq<Parsed>)
    ensures |ms| == |raws| && forall i :: 0 <= i < |raws| ==> ms[i] == ParseMessageRef(raws[i])
  {
    seq(|raws|, i requires 0 <= i < |raws| => ParseMessageRef(raws[i]))
  }

  /** Every reference is accepted and they name one peer. */
  predicate SamePeer(ms: seq<Parsed>) {
    && ms != [] && ms[0].Ok?
    && forall i :: 0 <= i < |ms| ==> ms[i].Ok? && ms[i].value.peer == ms[0].value.peer
  }

  /** The references before `i` are fine together, and `i` spoils it as the error says. */
  predicate FirstProblem(ms: seq<Parsed>, i: nat, e: RefsError) {
    && i < |ms| && (i == 0 || SamePeer(ms[..i]))
    && match e
       case NoRefs => false
       case BadRef(error) => ms[i] == Err(error)
       case OtherPeer => i > 0 && ms[i].Ok? && ms[0].Ok? && ms[i].value.peer != ms[0].value.peer
  }

  function IDsOf(ms: seq<Parsed>): (ids: seq<int>)
    requires forall i :: 0 <= i < |ms| ==> ms[i].Ok?
    ensures |ids| == |ms| && forall i :: 0 <= i < |ms| ==> ids[i] == ms[i].value.messageID
  {
    seq(|ms|, i requires 0 <= i < |ms| => ms[i].value.messageID)
  }

  lemma OneMore(ms: seq<Parsed>, i: nat)
    requires 0 < i < |ms| && SamePeer(ms[..i])
    ensures ms[0].Ok? && ms[0] == ms[..i][0]
    ensures SamePeer(ms[..i + 1]) <==> ms[i].Ok? && ms[i].value.peer == ms[0].value.peer
    ensures SamePeer(ms[..i + 1]) ==> IDsOf(ms[..i + 1]) == IDsOf(ms[..i]) + [ms[i].value.messageID]
    ensures SamePeer(ms) ==> SamePeer(ms[..i + 1])
  {
    assert forall k :: 0 <= k < i ==> ms[..i + 1][k] == ms[..i][k];
    assert forall k :: 0 <= k < i + 1 ==> ms[..i + 1][k] == ms[k];
  }

  lemma SameWhenPrintedAlike(p: Ref, q: Ref)
    requires WellFormed(p) && WellFormed(q)
    ensures String(p) == String(q) <==> p == q
  {
    RoundTrip(p);
    RoundTrip(q);
  }

  /** Peers are compared by their printed form, which decides whether they are the same peer. */
  method PrintsAlike(ghost s: string, ghost t: string, m: MessageRef, n: MessageRef) returns (same: bool)
    requires ParseMessageRef(s) == Ok(m) && ParseMessageRef(t) == Ok(n)
    ensures same <==> m.peer == n.peer
  {
    ParsePrintParse(s);
    ParsePrintParse(t);
    SameWhenPrintedAlike(m.peer, n.peer);
    same := String(m.peer) == String(n.peer);
  }

  method ParseMessageRefs(raws: seq<string>) returns (r: Result<(Ref, seq<int>), RefsError>)
    ensures r.Ok? <==> SamePeer(ParseAll(raws))
    ensures r.Ok? ==> r.value == (ParseMessageRef(raws[0]).value.peer, IDsOf(ParseAll(raws)))
    ensures r == Err(NoRefs) <==> raws == []
    ensures r.Err? && r != Err(NoRefs) ==> exists i :: FirstProblem(ParseAll(raws), i, r.error)
  {
    if |raws| == 0 {
      return Err(NoRefs);
    }
    ghost var ms := ParseAll(raws);
    var first := ParseMessageRef(raws[0]);
    if first.Err? {
      assert FirstProblem(ms, 0, BadRef(first.error));
      return Err(BadRef(first.error));
    }
    var ids := [first.value.messageID];
    for i := 1 to |raws|
      invariant SamePeer(ms[..i])
      invariant ids == IDsOf(ms[..i])
    {
      OneMore(ms, i);
      var next := ParseMessageRef(raws[i]);
      if next.Err? {
        assert FirstProblem(ms, i, BadRef(next.error));
        return Err(BadRef(next.error));
      }
      var same := PrintsAlike(raws[i], raws[0], next.value, first.value);
      if !same {
        assert FirstProblem(ms, i, OtherPeer);
        return Err(OtherPeer);
      }
      ids := ids + [next.value.messageID];
    }
    assert ms[..|raws|] == ms;
    r := Ok((first.value.peer, ids));
  }
}
