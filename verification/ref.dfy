/** Peer references as users type and the program prints them. */
module Refs {
  import opened Sequences
  import opened Text
  import opened Wrappers

  datatype RefKind =
    | Invalid
    | Me
    | Saved
    | Username
    | Phone
    | ID
    | Peer
    | TMeLink
    | TGDeeplink

  /** One record for every kind; the fields a kind does not use are zero. */
  datatype Ref = Ref(kind: RefKind, value: string, id: int, accessHash: int)

  datatype RefError =
    | Empty
    | EmptyLink
    | EmptyDeeplink
    | ChatShape
    | PeerShape
    | PeerID
    | PeerHash
    | BareAt
    | UsernameChar
    | NoDigits
    | PhoneChar
    | NotARef

  function Plain(kind: RefKind, value: string): Ref { Ref(kind, value, 0, 0) }

  // ----- printing -----

  function FormatPeer(kind: string, id: int, accessHash: int): string {
    if kind == "user" then "u:" + FormatInt(id) + ":" + FormatInt(accessHash)
    else if kind == "chat" then "g:" + FormatInt(id)
    else if kind == "channel" then "c:" + FormatInt(id) + ":" + FormatInt(accessHash)
    else FormatInt(id)
  }

  function String(r: Ref): string {
    match r.kind
    case Invalid => "<invalid>"
    case Me => "me"
    case Saved => "saved"
    case Username => "@" + r.value
    case Phone => "+" + r.value
    case ID => FormatInt(r.id)
    case Peer => FormatPeer(r.value, r.id, r.accessHash)
    case TMeLink => "t.me/" + r.value
    case TGDeeplink => "tg://" + r.value
  }

  // ----- parsing -----

  predicate IsUsernameChar(c: char) { 'a' <= c <= 'z' || 'A' <= c <= 'Z' || '0' <= c <= '9' || c == '_' }

  predicate IsUsername(s: string) { s != "" && forall i :: 0 <= i < |s| ==> IsUsernameChar(s[i]) }

  function NormalizePeerKind(s: string): Option<string> {
    if s == "u" || s == "user" then Some("user")
    else if s == "g" || s == "group" || s == "chat" then Some("chat")
    else if s == "c" || s == "channel" then Some("channel")
    else None
  }

  function StripTMePrefix(s: string): Option<string> {
    if HasPrefix(s, "https://t.me/") then Some(s[|"https://t.me/"|..])
    else if HasPrefix(s, "http://t.me/") then Some(s[|"http://t.me/"|..])
    else if HasPrefix(s, "t.me/") then Some(s[|"t.me/"|..])
    else None
  }

  /** `None` when the text is not a direct peer reference at all. */
  function ParsePeerParts(parts: seq<string>): Option<Result<Ref, RefError>>
    requires |parts| >= 1
  {
    var kind := NormalizePeerKind(parts[0]);
    if |parts| < 2 || kind == None then None
    else if kind.value == "chat" then
      if |parts| != 2 then Some(Err(ChatShape))
      else
        var id := ParseInt(parts[1]);
        if id == None || id.value <= 0 then Some(Err(PeerID))
        else Some(Ok(Ref(Peer, kind.value, id.value, 0)))
    else if |parts| != 3 then Some(Err(PeerShape))
    else
      var id, hash := ParseInt(parts[1]), ParseInt(parts[2]);
      if id == None || id.value <= 0 then Some(Err(PeerID))
      else if hash == None then Some(Err(PeerHash))
      else Some(Ok(Ref(Peer, kind.value, id.value, hash.value)))
  }

  function ParsePeerRef(s: string): Option<Result<Ref, RefError>> { ParsePeerParts(Split(s, ':')) }

  /** What is left when the text is neither a link nor a direct peer reference. */
  function ParseName(s: string): Result<Ref, RefError>
    requires s != ""
  {
    if s == "me" then Ok(Plain(Me, ""))
    else if s == "saved" then Ok(Plain(Saved, ""))
    else if s[0] == '@' then
      if |s| < 2 then Err(BareAt)
      else if !IsUsername(s[1..]) then Err(UsernameChar)
      else Ok(Plain(Username, s[1..]))
    else if s[0] == '+' then
      if |s| < 2 then Err(NoDigits)
      else if !AllDigits(s[1..]) then Err(PhoneChar)
      else Ok(Plain(Phone, s[1..]))
    else
      match ParseInt(s)
      case Some(n) => Ok(Ref(ID, "", n, 0))
      case None => Err(NotARef)
  }

  function ParseRef(s: string): Result<Ref, RefError> {
    if s == "" then Err(Empty)
    else
      match StripTMePrefix(s)
      case Some(v) => if v == "" then Err(EmptyLink) else Ok(Plain(TMeLink, v))
      case None =>
        if HasPrefix(s, "tg://") then
          if |s| == |"tg://"| then Err(EmptyDeeplink) else Ok(Plain(TGDeeplink, s[|"tg://"|..]))
        else
          match ParsePeerRef(s)
          case Some(r) => r
          case None => ParseName(s)
  }

  // ----- the references there are -----

  /** Exactly what parsing can return. */
  predicate WellFormed(r: Ref) {
    match r.kind
    case Invalid => false
    case Me => r == Plain(Me, "")
    case Saved => r == Plain(Saved, "")
    case Username => r == Plain(Username, r.value) && IsUsername(r.value)
    case Phone => r == Plain(Phone, r.value) && r.value != "" && AllDigits(r.value)
    case ID => r == Ref(ID, "", r.id, 0) && InInt64(r.id)
    case Peer =>
      && 0 < r.id && InInt64(r.id)
      && ((r.value == "chat" && r.accessHash == 0)
          || ((r.value == "user" || r.value == "channel") && InInt64(r.accessHash)))
    case TMeLink => r == Plain(TMeLink, r.value) && r.value != ""
    case TGDeeplink => r == Plain(TGDeeplink, r.value) && r.value != ""
  }

  lemma PeerIsWellFormed(parts: seq<string>)
    requires |parts| >= 1
    ensures match ParsePeerParts(parts)
      case Some(Ok(r)) => WellFormed(r) && r.kind == Peer
      case _ => true
  {
  }

  lemma NameIsWellFormed(s: string)
    requires s != ""
    ensures ParseName(s).Ok? ==> WellFormed(ParseName(s).value) && ParseName(s).value.kind != Peer
  {
  }

  lemma ParsedIsWellFormed(s: string)
    ensures ParseRef(s).Ok? ==> WellFormed(ParseRef(s).value)
  {
    PeerIsWellFormed(Split(s, ':'));
    if s != "" { NameIsWellFormed(s); }
  }

  /** A text that starts with another character has none of the link prefixes. */
  lemma NoLinkPrefix(s: string)
    requires s != "" && s[0] != 't' && s[0] != 'h'
    ensures StripTMePrefix(s) == None && !HasPrefix(s, "tg://")
  {
    assert "https://t.me/"[0] == 'h' && "http://t.me/"[0] == 'h' && "t.me/"[0] == 't' && "tg://"[0] == 't';
  }

  lemma NoColonNoPeer(s: string)
    requires Lacks(s, ':')
    ensures ParsePeerRef(s) == None
  {
    SplitOne(s, ':');
  }

  lemma LinkRoundTrip(v: string)
    requires v != ""
    ensures ParseRef("t.me/" + v) == Ok(Plain(TMeLink, v))
    ensures ParseRef("tg://" + v) == Ok(Plain(TGDeeplink, v))
  {
    var link, deep := "t.me/" + v, "tg://" + v;
    assert link[0] == 't' && link[|"t.me/"|..] == v;
    assert "https://t.me/"[0] == 'h' && "http://t.me/"[0] == 'h';
    assert deep[1] == 'g' && "t.me/"[1] == '.' && deep[|"tg://"|..] == v;
  }

  lemma SplitTwo(a: string, b: string)
    requires Lacks(a, ':') && Lacks(b, ':')
    ensures Split(a + ":" + b, ':') == [a, b]
  {
    SplitOne(b, ':');
    SplitCons(a, b, ':');
  }

  lemma SplitThree(a: string, b: string, c: string)
    requires Lacks(a, ':') && Lacks(b, ':') && Lacks(c, ':')
    ensures Split(a + ":" + (b + ":" + c), ':') == [a, b, c]
  {
    SplitTwo(b, c);
    SplitCons(a, b + ":" + c, ':');
  }

  lemma ParseChat(id: int)
    requires 0 < id && InInt64(id)
    ensures ParsePeerRef("g" + ":" + FormatInt(id)) == Some(Ok(Ref(Peer, "chat", id, 0)))
  {
    FormatIntLacks(id, ':');
    SplitTwo("g", FormatInt(id));
    ParseFormat(id);
  }

  lemma ParseThreeParts(k: string, kind: string, b: string, c: string, id: int, accessHash: int)
    requires NormalizePeerKind(k) == Some(kind) && kind != "chat"
    requires ParseInt(b) == Some(id) && 0 < id && ParseInt(c) == Some(accessHash)
    ensures ParsePeerParts([k, b, c]) == Some(Ok(Ref(Peer, kind, id, accessHash)))
  {
  }

  lemma ParseUserOrChannel(k: string, kind: string, id: int, accessHash: int)
    requires (k == "u" && kind == "user") || (k == "c" && kind == "channel")
    requires 0 < id && InInt64(id) && InInt64(accessHash)
    ensures ParsePeerRef(k + ":" + (FormatInt(id) + ":" + FormatInt(accessHash))) ==
            Some(Ok(Ref(Peer, kind, id, accessHash)))
  {
    var b, c := FormatInt(id), FormatInt(accessHash);
    FormatIntLacks(id, ':');
    FormatIntLacks(accessHash, ':');
    ParseFormat(id);
    ParseFormat(accessHash);
    assert Split(k + ":" + (b + ":" + c), ':') == [k, b, c] by {
      assert Lacks(k, ':');
      SplitThree(k, b, c);
    }
    assert ParsePeerParts([k, b, c]) == Some(Ok(Ref(Peer, kind, id, accessHash))) by {
      assert "user"[0] != "chat"[0] && |"channel"| != |"chat"|;
      assert NormalizePeerKind(k) == Some(kind) && kind != "chat";
      ParseThreeParts(k, kind, b, c, id, accessHash);
    }
  }

  /** The letter a direct peer reference is printed with. */
  function Letter(kind: string): string { if kind == "user" then "u" else if kind == "chat" then "g" else "c" }

  lemma PeerString(r: Ref)
    requires WellFormed(r) && r.kind == Peer
    ensures String(r) == Letter(r.value) + ":" +
            if r.value == "chat" then FormatInt(r.id) else FormatInt(r.id) + ":" + FormatInt(r.accessHash)
  {
    assert "u:" == "u" + ":" && "g:" == "g" + ":" && "c:" == "c" + ":";
    Regroup(Letter(r.value) + ":", FormatInt(r.id), ":");
    Regroup(Letter(r.value) + ":", FormatInt(r.id) + ":", FormatInt(r.accessHash));
  }

  lemma PeerRoundTrip(r: Ref)
    requires WellFormed(r) && r.kind == Peer
    ensures ParseRef(String(r)) == Ok(r)
  {
    PeerString(r);
    if r.value == "chat" {
      ParseChat(r.id);
    } else {
      ParseUserOrChannel(Letter(r.value), r.value, r.id, r.accessHash);
    }
    NoLinkPrefix(String(r));
  }

  lemma NameRoundTrip(r: Ref)
    requires WellFormed(r) && (r.kind == Username || r.kind == Phone || r.kind == ID)
    ensures ParseRef(String(r)) == Ok(r)
  {
    var s := String(r);
    if r.kind == ID {
      FormatIntLacks(r.id, ':');
      ParseFormat(r.id);
    } else {
      assert s[1..] == r.value;
    }
    NoColonNoPeer(s);
    NoLinkPrefix(s);
  }

  lemma WordRoundTrip()
    ensures ParseRef("me") == Ok(Plain(Me, "")) && ParseRef("saved") == Ok(Plain(Saved, ""))
  {
    NoColonNoPeer("me");
    NoColonNoPeer("saved");
    NoLinkPrefix("me");
    NoLinkPrefix("saved");
  }

  lemma RoundTrip(r: Ref)
    requires WellFormed(r)
    ensures ParseRef(String(r)) == Ok(r)
  {
    match r.kind
    case Me => WordRoundTrip();
    case Saved => WordRoundTrip();
    case Username => NameRoundTrip(r);
    case Phone => NameRoundTrip(r);
    case ID => NameRoundTrip(r);
    case Peer => PeerRoundTrip(r);
    case TMeLink => LinkRoundTrip(r.value);
    case TGDeeplink => LinkRoundTrip(r.value);
  }

  /** Every accepted reference is read back from its printed form, over all kinds and every spelling. */
  lemma ParseStringParse(s: string)
    ensures match ParseRef(s)
      case Ok(r) => ParseRef(String(r)) == Ok(r)
      case Err(_) => true
  {
    ParsedIsWellFormed(s);
    if ParseRef(s).Ok? { RoundTrip(ParseRef(s).value); }
  }

  /** The records parsing can return are exactly the well-formed ones. */
  lemma ParsedIffWellFormed(r: Ref)
    ensures (exists s :: ParseRef(s) == Ok(r)) <==> WellFormed(r)
  {
    if WellFormed(r) { RoundTrip(r); }
    forall s | ParseRef(s) == Ok(r) ensures WellFormed(r) { ParsedIsWellFormed(s); }
  }

  /** Two accepted references print alike only when they are the same. */
  lemma StringInjective(s: string, t: string)
    requires ParseRef(s).Ok? && ParseRef(t).Ok?
    ensures String(ParseRef(s).value) == String(ParseRef(t).value) <==> ParseRef(s) == ParseRef(t)
  {
    ParseStringParse(s);
    ParseStringParse(t);
  }
}
