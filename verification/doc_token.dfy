/** Copy-pasteable handles of stickers and gifs: a prefix and the document's fields in base64url. */
module DocTokens {
  import opened Base64Url
  import opened Bytes
  import opened MessageRefs
  import opened Refs
  import opened Text
  import opened Words
  import opened Wrappers

  const STICKER: string := "stk_"

  const GIF: string := "gif_"

  /** The four numbers are signed 64-bit words. */
  datatype Doc = Doc(id: Int64, accessHash: Int64, setID: Int64, setAccessHash: Int64, fileReference: seq<Byte>)

  datatype TokenError = InvalidToken

  function WordBytes(n: Int64): (b: seq<Byte>)
    ensures |b| == 8
  {
    BigEndian(FromSigned(n), 8)
  }

  function NumberAt(raw: seq<Byte>, at: nat): Int64
    requires at + 8 <= |raw|
  {
    Pow256Of8();
    ToSigned(FromBigEndian(raw[at..at + 8]))
  }

  function DocBytes(doc: Doc): (raw: seq<Byte>)
    ensures |raw| == 32 + |doc.fileReference|
  {
    WordBytes(doc.id) + WordBytes(doc.accessHash) + WordBytes(doc.setID) + WordBytes(doc.setAccessHash)
    + doc.fileReference
  }

  function Token(prefix: string, doc: Doc): string { prefix + Encode(DocBytes(doc)) }

  /** `None` when the text is no token with this prefix. */
  function DecodeDocToken(prefix: string, s: string): Result<Option<Doc>, TokenError> {
    if |s| <= |prefix| || !HasPrefix(s, prefix) then Ok(None)
    else
      match Decode(s[|prefix|..])
      case None => Err(InvalidToken)
      case Some(raw) =>
        if |raw| < 32 then Err(InvalidToken)
        else Ok(Some(Doc(NumberAt(raw, 0), NumberAt(raw, 8), NumberAt(raw, 16), NumberAt(raw, 24), raw[32..])))
  }

  method EncodeDocToken(prefix: string, doc: Doc) returns (token: string)
    ensures token == Token(prefix, doc)
  {
    var buf := new Byte[32 + |doc.fileReference|];
    PutBigEndian(buf, 0, 8, FromSigned(doc.id));
    PutBigEndian(buf, 8, 8, FromSigned(doc.accessHash));
    PutBigEndian(buf, 16, 8, FromSigned(doc.setID));
    PutBigEndian(buf, 24, 8, FromSigned(doc.setAccessHash));
    CopyInto(buf, 32, doc.fileReference);
    assert buf[..] == DocBytes(doc);
    token := prefix + Encode(buf[..]);
  }

  // ----- round trip -----

  lemma WordRoundTrip64(n: Int64)
    ensures FromBigEndian(WordBytes(n)) < WORD && ToSigned(FromBigEndian(WordBytes(n))) == n
  {
    Pow256Of8();
    BigEndianRoundTrip(FromSigned(n), 8);
    SignedRoundTrip(n);
  }

  lemma DocFields(doc: Doc)
    ensures var raw := DocBytes(doc);
      && raw[0..8] == WordBytes(doc.id) && raw[8..16] == WordBytes(doc.accessHash)
      && raw[16..24] == WordBytes(doc.setID) && raw[24..32] == WordBytes(doc.setAccessHash)
      && raw[32..] == doc.fileReference
  {
  }

  /** All four numbers, negative ones included, and any file reference come back. */
  lemma TokenRoundTrip(prefix: string, doc: Doc)
    ensures DecodeDocToken(prefix, Token(prefix, doc)) == Ok(Some(doc))
  {
    var raw := DocBytes(doc);
    DecodeEncode(raw);
    EncodedLength(raw);
    assert Token(prefix, doc)[|prefix|..] == Encode(raw);
    DocFields(doc);
    WordRoundTrip64(doc.id);
    WordRoundTrip64(doc.accessHash);
    WordRoundTrip64(doc.setID);
    WordRoundTrip64(doc.setAccessHash);
  }

  lemma EncodedLength(b: seq<Byte>)
    requires b != []
    ensures |Encode(b)| > 0
  {
  }

  lemma TokenInjective(prefix: string, a: Doc, b: Doc)
    requires Token(prefix, a) == Token(prefix, b)
    ensures a == b
  {
    TokenRoundTrip(prefix, a);
    TokenRoundTrip(prefix, b);
  }

  // ----- the three kinds of source -----

  /** A text is a token of one kind at most: with the other prefix it is no token at all. */
  lemma OneKind(s: string)
    ensures HasPrefix(s, STICKER) ==> DecodeDocToken(GIF, s) == Ok(None)
    ensures HasPrefix(s, GIF) ==> DecodeDocToken(STICKER, s) == Ok(None)
  {
    assert STICKER[0] != GIF[0];
  }

  lemma TokenHasNoColon(prefix: string, s: string)
    requires (prefix == STICKER || prefix == GIF)
    requires DecodeDocToken(prefix, s).Ok? && DecodeDocToken(prefix, s).value.Some?
    ensures Lacks(s, ':')
  {
    var body := s[|prefix|..];
    assert s == prefix + body;
    forall i | 0 <= i < |body| ensures body[i] != ':' { AcceptedCharacters(body, i); }
  }

  /** The alphabet has no colon, so an accepted token is no message reference. */
  lemma TokenIsNoMessage(prefix: string, s: string)
    requires (prefix == STICKER || prefix == GIF)
    requires DecodeDocToken(prefix, s).Ok? && DecodeDocToken(prefix, s).value.Some?
    ensures ParseMessageRef(s) == Err(BadShape)
  {
    TokenHasNoColon(prefix, s);
  }

  predicate Prefixed(s: string) { HasPrefix(s, STICKER) || HasPrefix(s, GIF) }

  lemma PrefixedStart(s: string)
    requires Prefixed(s)
    ensures |s| >= 4 && Lacks(s[..4], ':') && s[3] == '_'
    ensures s[0] == 'g' || (s[0] == 's' && s[1] == 't')
  {
    assert STICKER == ['s', 't', 'k', '_'] && GIF == ['g', 'i', 'f', '_'];
    assert s[..4] == STICKER || s[..4] == GIF;
    assert s[..4][0] == s[0] && s[..4][1] == s[1] && s[..4][3] == s[3];
  }

  lemma NoKind(k: string)
    requires |k| >= 4 && k[3] == '_'
    ensures NormalizePeerKind(k) == None
  {
    assert "user"[3] == 'r' && "group"[3] == 'u' && "chat"[3] == 't' && "channel"[3] == 'n';
  }

  /** No text that starts like a token is a peer reference. */
  lemma PrefixedIsNoPeer(s: string)
    requires Prefixed(s)
    ensures ParseRef(s).Err?
  {
    PrefixedStart(s);
    NoLinkPrefix(s);
    var i := IndexOf(s, ':');
    assert i >= 4 by { assert forall k :: 0 <= k < 4 ==> s[..4][k] == s[k]; }
    assert Split(s, ':')[0] == s[..i];
    NoKind(s[..i]);
    assert "saved"[1] == 'a';
  }

  /** So a message reference is never mistaken for a token, not even for a malformed one. */
  lemma PrefixedIsNoMessage(s: string)
    requires Prefixed(s)
    ensures ParseMessageRef(s).Err?
  {
    PrefixedStart(s);
    var i := AfterLast(s, ':');
    if 1 < i < |s| {
      assert i - 1 >= 4 by { assert forall k :: 0 <= k < 4 ==> s[..4][k] == s[k]; }
      var peer := s[..i - 1];
      assert peer[..4] == s[..4];
      PrefixedIsNoPeer(peer);
    }
  }

  datatype Source = FromDoc(doc: Doc) | FromMessage(m: MessageRef)

  datatype SourceError = BadToken | BadMessage(error: MessageRefError)

  /** The argument of a sticker or gif option: a token with the option's prefix, or a message reference. */
  function ParseSource(prefix: string, raw: string): Result<Source, SourceError> {
    match DecodeDocToken(prefix, raw)
    case Err(_) => Err(BadToken)
    case Ok(Some(doc)) => Ok(FromDoc(doc))
    case Ok(None) =>
      match ParseMessageRef(raw)
      case Ok(m) => Ok(FromMessage(m))
      case Err(e) => Err(BadMessage(e))
  }

  /** Which of the two is tried first does not matter: the readings never overlap. */
  lemma SourceReadings(prefix: string, raw: string)
    requires prefix == STICKER || prefix == GIF
    ensures forall doc :: ParseSource(prefix, raw) == Ok(FromDoc(doc)) <==> DecodeDocToken(prefix, raw) == Ok(Some(doc))
    ensures forall m :: ParseSource(prefix, raw) == Ok(FromMessage(m)) <==> ParseMessageRef(raw) == Ok(m)
  {
    if Prefixed(raw) { PrefixedIsNoMessage(raw); }
  }

  /** A sticker handle is refused where a gif is expected, and the other way round. */
  lemma HandlesDoNotMix(doc: Doc)
    ensures ParseSource(STICKER, Token(STICKER, doc)) == Ok(FromDoc(doc))
    ensures ParseSource(GIF, Token(GIF, doc)) == Ok(FromDoc(doc))
    ensures ParseSource(GIF, Token(STICKER, doc)) == Err(BadMessage(BadShape))
    ensures ParseSource(STICKER, Token(GIF, doc)) == Err(BadMessage(BadShape))
  {
    TokenRoundTrip(STICKER, doc);
    TokenRoundTrip(GIF, doc);
    OneKind(Token(STICKER, doc));
    OneKind(Token(GIF, doc));
    TokenIsNoMessage(STICKER, Token(STICKER, doc));
    TokenIsNoMessage(GIF, Token(GIF, doc));
  }

  // ----- the layout -----

  /** A signed number's byte `i` of eight, most significant first, in two's complement. */
  function SignedByte(n: Int64, i: nat): int
    requires i < 8
  {
    (if n < 0 then n + 0x1_0000_0000_0000_0000 else n) / Pow256(7 - i) % 256
  }

  lemma WordByte(n: Int64, i: nat)
    requires i < 8
    ensures WordBytes(n)[i] == SignedByte(n, i)
  {
    BigEndianDigit(FromSigned(n), 8, i);
    assert FromSigned(n) == if n < 0 then n + 0x1_0000_0000_0000_0000 else n;
  }

  /** The four numbers in their order, eight bytes each, and then the file reference. */
  lemma DocLayout(doc: Doc, i: nat)
    requires i < 32 + |doc.fileReference|
    ensures DocBytes(doc)[i] ==
            if i < 8 then SignedByte(doc.id, i)
            else if i < 16 then SignedByte(doc.accessHash, i - 8)
            else if i < 24 then SignedByte(doc.setID, i - 16)
            else if i < 32 then SignedByte(doc.setAccessHash, i - 24)
            else doc.fileReference[i - 32]
  {
    DocFields(doc);
    if i < 8 { WordByte(doc.id, i); }
    else if i < 16 { WordByte(doc.accessHash, i - 8); }
    else if i < 24 { WordByte(doc.setID, i - 16); }
    else if i < 32 { WordByte(doc.setAccessHash, i - 24); }
  }

  lemma SignedReadBack(w: Word)
    ensures FromSigned(ToSigned(w)) == w
  {
  }

  lemma NumberReadBack(raw: seq<Byte>, at: nat)
    requires at + 8 <= |raw|
    ensures WordBytes(NumberAt(raw, at)) == raw[at..at + 8]
  {
    Pow256Of8();
    var b := raw[at..at + 8];
    var w: Word := FromBigEndian(b);
    SignedReadBack(w);
    FromBigEndianRoundTrip(b);
    assert BigEndian(w, |b|) == b;
  }

  /**
    What a text is read as: nothing unless something follows the prefix; otherwise a document exactly when the
    rest decodes to 32 bytes or more, and then those bytes are the document's.
  */
  lemma DecodeReads(prefix: string, s: string)
    ensures DecodeDocToken(prefix, s) == Ok(None) <==> |s| <= |prefix| || s[..|prefix|] != prefix
    ensures |s| > |prefix| && s[..|prefix|] == prefix ==>
              var r, raw := DecodeDocToken(prefix, s), Decode(s[|prefix|..]);
              && (r.Ok? <==> raw.Some? && |raw.value| >= 32)
              && (r.Ok? ==> r.value.Some? && DocBytes(r.value.value) == raw.value)
  {
    if |s| > |prefix| && s[..|prefix|] == prefix && DecodeDocToken(prefix, s).Ok? {
      var raw := Decode(s[|prefix|..]).value;
      NumberReadBack(raw, 0);
      NumberReadBack(raw, 8);
      NumberReadBack(raw, 16);
      NumberReadBack(raw, 24);
      assert raw == raw[0..8] + raw[8..16] + raw[16..24] + raw[24..32] + raw[32..];
    }
  }
}
