/** Which texts are accepted for which peer reference: an independent definition of the parser. */
module RefSpelling {
  import opened Refs
  import opened Text
  import opened Wrappers

  /** The words a direct peer reference may start with. */
  predicate KindWord(k: string, kind: string) {
    || (kind == "user" && (k == "u" || k == "user"))
    || (kind == "chat" && (k == "g" || k == "group" || k == "chat"))
    || (kind == "channel" && (k == "c" || k == "channel"))
  }

  predicate IsPeerText(s: string, r: Ref, k: string, a: string, b: string) {
    && KindWord(k, r.value)
    && s == k + ":" + if r.value == "chat" then a else a + ":" + b
  }

  /** Every way to write a reference; numbers with any leading zeros and, but for a bare id, any fitting sign. */
  ghost predicate SpellsRef(s: string, r: Ref) {
    match r.kind
    case Invalid => false
    case Me => s == "me"
    case Saved => s == "saved"
    case Username => s == "@" + r.value
    case Phone => s == "+" + r.value
    case ID => s != "" && s[0] != '+' && Spells(s, r.id)
    case Peer =>
      exists k, a, b ::
        IsPeerText(s, r, k, a, b) && Spells(a, r.id) && (r.value == "chat" || Spells(b, r.accessHash))
    case TMeLink => s == "https://t.me/" + r.value || s == "http://t.me/" + r.value || s == "t.me/" + r.value
    case TGDeeplink => s == "tg://" + r.value
  }

  /** The references there are, field by field. */
  predicate Proper(r: Ref) {
    && -0x8000_0000_0000_0000 <= r.id < 0x8000_0000_0000_0000
    && -0x8000_0000_0000_0000 <= r.accessHash < 0x8000_0000_0000_0000
    && (r.kind != Peer ==> r.accessHash == 0 && (r.kind != ID ==> r.id == 0))
    && match r.kind
       case Invalid => false
       case Me => r.value == ""
       case Saved => r.value == ""
       case Username =>
         && r.value != ""
         && forall i :: 0 <= i < |r.value| ==>
              var c := r.value[i]; 'a' <= c <= 'z' || 'A' <= c <= 'Z' || '0' <= c <= '9' || c == '_'
       case Phone => r.value != "" && forall i :: 0 <= i < |r.value| ==> '0' <= r.value[i] <= '9'
       case ID => r.value == ""
       case Peer => r.id > 0 && (r.value == "user" || r.value == "channel" || (r.value == "chat" && r.accessHash == 0))
       case TMeLink => r.value != ""
       case TGDeeplink => r.value != ""
  }

  lemma ProperIff(r: Ref)
    ensures Proper(r) <==> WellFormed(r)
  {
  }

  lemma KindWords(k: string, kind: string)
    ensures NormalizePeerKind(k) == Some(kind) <==> KindWord(k, kind)
  {
    assert "user"[0] == 'u' && "chat"[0] == 'c' && "channel"[0] == 'c' && |"chat"| != |"channel"| && |"c"| == 1;
  }

  lemma KindWordStart(k: string, kind: string)
    requires KindWord(k, kind)
    ensures k != "" && Lacks(k, ':') && (k[0] == 'u' || k[0] == 'g' || k[0] == 'c')
  {
  }

  // ----- accepted texts are spellings -----

  lemma PeerTextRead(s: string, r: Ref)
    requires ParsePeerRef(s) == Some(Ok(r))
    ensures r.kind == Peer && SpellsRef(s, r)
  {
    var parts := Split(s, ':');
    SplitJoin(s, ':');
    PeerIsWellFormed(parts);
    KindWords(parts[0], r.value);
    ParseIntReads(parts[1], r.id);
    if r.value == "chat" {
      assert parts == [parts[0], parts[1]];
      assert s == parts[0] + ":" + parts[1];
      assert IsPeerText(s, r, parts[0], parts[1], "");
    } else {
      ParseIntReads(parts[2], r.accessHash);
      ThreeJoined(parts, s);
      assert IsPeerText(s, r, parts[0], parts[1], parts[2]);
    }
  }

  lemma ThreeJoined(parts: seq<string>, s: string)
    requires |parts| == 3 && Join(parts, ':') == s
    ensures s == parts[0] + ":" + (parts[1] + ":" + parts[2])
  {
    assert parts[1..][1..] == [parts[2]];
    assert Join(parts[1..], ':') == parts[1] + [':'] + Join(parts[1..][1..], ':');
  }

  lemma NameRead(s: string, r: Ref)
    requires s != "" && ParseName(s) == Ok(r)
    ensures SpellsRef(s, r)
  {
    assert s == [s[0]] + s[1..];
    if r.kind == ID { ParseIntReads(s, r.id); }
  }

  lemma LinkRead(s: string, r: Ref)
    requires s != "" && ParseRef(s) == Ok(r) && (StripTMePrefix(s).Some? || HasPrefix(s, "tg://"))
    ensures SpellsRef(s, r)
  {
    if HasPrefix(s, "https://t.me/") {
      assert s == "https://t.me/" + s[13..];
    } else if HasPrefix(s, "http://t.me/") {
      assert s == "http://t.me/" + s[12..];
    } else if HasPrefix(s, "t.me/") {
      assert s == "t.me/" + s[5..];
    } else {
      assert s == "tg://" + s[5..];
    }
  }

  // ----- spellings are accepted -----

  lemma PeerTextAccepted(s: string, r: Ref, k: string, a: string, b: string)
    requires WellFormed(r) && r.kind == Peer && IsPeerText(s, r, k, a, b)
    requires Spells(a, r.id) && (r.value == "chat" || Spells(b, r.accessHash))
    ensures ParseRef(s) == Ok(r)
  {
    KindWords(k, r.value);
    KindWordStart(k, r.value);
    SpellingLacks(a, r.id, ':');
    ParseIntReads(a, r.id);
    assert s[0] == k[0];
    NoLinkPrefix(s);
    if r.value == "chat" {
      SplitTwo(k, a);
      ChatParts(k, a, r.id);
    } else {
      SpellingLacks(b, r.accessHash, ':');
      ParseIntReads(b, r.accessHash);
      SplitThree(k, a, b);
      ParseThreeParts(k, r.value, a, b, r.id, r.accessHash);
    }
  }

  lemma ChatParts(k: string, a: string, id: int)
    requires NormalizePeerKind(k) == Some("chat") && ParseInt(a) == Some(id) && 0 < id
    ensures ParsePeerParts([k, a]) == Some(Ok(Ref(Peer, "chat", id, 0)))
  {
  }

  lemma IdAccepted(s: string, r: Ref)
    requires WellFormed(r) && r.kind == ID && SpellsRef(s, r)
    ensures ParseRef(s) == Ok(r)
  {
    SpellingLacks(s, r.id, ':');
    SpellingStart(s, r.id);
    ParseIntReads(s, r.id);
    NoColonNoPeer(s);
    NoLinkPrefix(s);
  }

  lemma SpellingStart(s: string, n: int)
    requires Spells(s, n)
    ensures s != "" && (IsDigit(s[0]) || s[0] == '+' || s[0] == '-')
  {
    var sign, k :| SpelledAs(s, n, sign, k);
    ValueOfZeros(k, if n >= 0 then n else -n);
  }

  lemma LinkAccepted(s: string, r: Ref)
    requires WellFormed(r) && (r.kind == TMeLink || r.kind == TGDeeplink) && SpellsRef(s, r)
    ensures ParseRef(s) == Ok(r)
  {
    if s == "https://t.me/" + r.value && r.kind == TMeLink {
      assert s[13..] == r.value;
    } else if s == "http://t.me/" + r.value && r.kind == TMeLink {
      assert s[4] == ':' && "https://t.me/"[4] == 's' && s[12..] == r.value;
    } else {
      LinkRoundTrip(r.value);
    }
  }

  /** The parser accepts exactly the spellings of the references there are. */
  lemma ParseRefReads(s: string, r: Ref)
    ensures ParseRef(s) == Ok(r) <==> Proper(r) && SpellsRef(s, r)
  {
    ProperIff(r);
    if ParseRef(s) == Ok(r) {
      ParsedIsWellFormed(s);
      if StripTMePrefix(s).Some? || HasPrefix(s, "tg://") {
        LinkRead(s, r);
      } else if ParsePeerRef(s).Some? {
        PeerTextRead(s, r);
      } else {
        NameRead(s, r);
      }
    }
    if WellFormed(r) && SpellsRef(s, r) {
      SpellingAccepted(s, r);
    }
  }

  lemma SpellingAccepted(s: string, r: Ref)
    requires WellFormed(r) && SpellsRef(s, r)
    ensures ParseRef(s) == Ok(r)
  {
    if r.kind == Peer {
      var k, a, b :|
        IsPeerText(s, r, k, a, b) && Spells(a, r.id) && (r.value == "chat" || Spells(b, r.accessHash));
      PeerTextAccepted(s, r, k, a, b);
    } else if r.kind == ID {
      IdAccepted(s, r);
    } else if r.kind == TMeLink || r.kind == TGDeeplink {
      LinkAccepted(s, r);
    } else {
      assert s == String(r);
      RoundTrip(r);
    }
  }

  // ----- refused texts -----

  predicate NameError(e: RefError) {
    e == BareAt || e == UsernameChar || e == NoDigits || e == PhoneChar || e == NotARef
  }

  predicate PeerError(e: RefError) { e == ChatShape || e == PeerShape || e == PeerID || e == PeerHash }

  lemma PeerErrors(s: string)
    ensures var r := ParsePeerRef(s);
      r.Some? && r.value.Err? ==> PeerError(r.value.error) && exists kind :: KindWord(Split(s, ':')[0], kind)
  {
    var r := ParsePeerRef(s);
    if r.Some? {
      var kind := NormalizePeerKind(Split(s, ':')[0]).value;
      KindWords(Split(s, ':')[0], kind);
    }
  }

  lemma NameErrors(s: string)
    requires s != "" && ParseName(s).Err?
    ensures var e := ParseName(s).error;
      && NameError(e)
      && (e == BareAt <==> s == "@") && (e == NoDigits <==> s == "+")
      && (e == UsernameChar <==> s[0] == '@' && |s| > 1)
      && (e == PhoneChar <==> s[0] == '+' && |s| > 1)
  {
    assert s == [s[0]] + s[1..];
  }

  lemma BareLink(s: string)
    ensures StripTMePrefix(s) == Some("") <==> s == "https://t.me/" || s == "http://t.me/" || s == "t.me/"
  {
    if HasPrefix(s, "https://t.me/") {
      assert s == "https://t.me/" + s[13..];
    } else if HasPrefix(s, "http://t.me/") {
      assert s == "http://t.me/" + s[12..] && s[4] == ':';
    } else if HasPrefix(s, "t.me/") {
      assert s == "t.me/" + s[5..];
    }
  }

  predicate LinkRefused(s: string, e: RefError) {
    || (e == Empty && s == "")
    || (e == EmptyLink && (s == "https://t.me/" || s == "http://t.me/" || s == "t.me/"))
    || (e == EmptyDeeplink && s == "tg://")
  }

  /** Where in the parser a text is refused. */
  lemma RefusedWhere(s: string)
    requires ParseRef(s).Err?
    ensures var e := ParseRef(s).error;
      LinkRefused(s, e) || ParsePeerRef(s) == Some(Err(e)) || (s != "" && ParseName(s) == Err(e))
  {
    BareLink(s);
    if HasPrefix(s, "tg://") { assert s == "tg://" + s[5..]; }
  }

  /**
    A refused text: an empty one, a link without a path, a deep link without a body, a bare at or plus sign is
    named as such; a wrong character is one behind an at or plus sign; and a text refused as a peer begins
    with a peer's word.
  */
  lemma RefusalIsNamed(s: string)
    requires ParseRef(s).Err?
    ensures var e := ParseRef(s).error;
      && (e == Empty ==> s == "")
      && (e == EmptyLink ==> s == "https://t.me/" || s == "http://t.me/" || s == "t.me/")
      && (e == EmptyDeeplink ==> s == "tg://")
      && (e == BareAt ==> s == "@") && (e == NoDigits ==> s == "+")
      && (e == UsernameChar ==> s != "" && s[0] == '@') && (e == PhoneChar ==> s != "" && s[0] == '+')
      && (PeerError(e) ==> exists kind :: KindWord(Split(s, ':')[0], kind))
  {
    RefusedWhere(s);
    var e := ParseRef(s).error;
    if ParsePeerRef(s) == Some(Err(e)) {
      PeerErrors(s);
    } else if s != "" && ParseName(s) == Err(e) {
      NameErrors(s);
    }
  }
}
