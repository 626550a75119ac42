/** The session file: magic, version, payload length, payload. */
module SessionFrame {
  import opened Wrappers
  import opened Bytes
  import opened Sequences

  const MAGIC: seq<Byte> := [0x54, 0x47, 0x53, 0x4E]

  const VERSION: nat := 1

  const HEADER: nat := 10

  datatype SessionError = BadMagic | BadVersion | BadLength

  /** What the storage writes for a payload; the length field is 32 bits wide. */
  function Frame(payload: seq<Byte>): (file: seq<Byte>)
    ensures |file| == HEADER + |payload|
  {
    MAGIC + BigEndian(VERSION, 2) + BigEndian(|payload|, 4) + payload
  }

  /** What the storage makes of a file. */
  function Parse(file: seq<Byte>): Result<seq<Byte>, SessionError> {
    if |file| < HEADER then Err(BadMagic)
    else if file[..4] != MAGIC then Err(BadMagic)
    else if FromBigEndian(file[4..6]) != VERSION then Err(BadVersion)
    else if FromBigEndian(file[6..HEADER]) != |file| - HEADER then Err(BadLength)
    else Ok(file[HEADER..])
  }

  method FrameSession(payload: seq<Byte>) returns (framed: array<Byte>)
    ensures fresh(framed) && framed[..] == Frame(payload)
  {
    framed := new Byte[HEADER + |payload|];
    CopyInto(framed, 0, MAGIC);
    PutBigEndian(framed, 4, 2, VERSION);
    PutBigEndian(framed, 6, 4, |payload|);
    CopyInto(framed, HEADER, payload);
    assert framed[..] == Frame(payload);
  }

  method ParseSession(file: seq<Byte>) returns (r: Result<seq<Byte>, SessionError>)
    ensures r == Parse(file)
  {
    if |file| < HEADER {
      return Err(BadMagic);
    }
    if file[..4] != MAGIC {
      return Err(BadMagic);
    }
    if FromBigEndian(file[4..6]) != VERSION {
      return Err(BadVersion);
    }
    var payloadLen := FromBigEndian(file[6..HEADER]);
    if payloadLen != |file| - HEADER {
      return Err(BadLength);
    }
    var payload := new Byte[payloadLen];
    CopyInto(payload, 0, file[HEADER..]);
    assert payload[..] == file[HEADER..];
    r := Ok(payload[..]);
  }

  /** A file with the four fields holding anything that fits them. */
  function Fields(magic: seq<Byte>, version: nat, length: nat, payload: seq<Byte>): (file: seq<Byte>)
    requires |magic| == 4
    ensures |file| == HEADER + |payload|
  {
    magic + BigEndian(version, 2) + BigEndian(length, 4) + payload
  }

  /** Each kind of damage is reported as itself: magic first, then version, then length. */
  lemma DamageIsNamed(magic: seq<Byte>, version: nat, length: nat, payload: seq<Byte>)
    requires |magic| == 4 && version < 0x1_0000 && length < 0x1_0000_0000
    ensures Parse(Fields(magic, version, length, payload)) ==
            if magic != MAGIC then Err(BadMagic)
            else if version != VERSION then Err(BadVersion)
            else if length != |payload| then Err(BadLength)
            else Ok(payload)
  {
    FourParts(magic, BigEndian(version, 2), BigEndian(length, 4), payload);
    Pow256Of4();
    assert Pow256(2) == 0x1_0000;
    BigEndianRoundTrip(version, 2);
    BigEndianRoundTrip(length, 4);
  }

  lemma FrameFields(payload: seq<Byte>)
    ensures var file := Frame(payload);
      && file[..4] == MAGIC && file[4..6] == BigEndian(VERSION, 2)
      && file[6..HEADER] == BigEndian(|payload|, 4) && file[HEADER..] == payload
  {
    FourParts(MAGIC, BigEndian(VERSION, 2), BigEndian(|payload|, 4), payload);
  }

  /** What was stored is loaded again, unless its length does not fit the length field. */
  lemma LoadWhatWasStored(payload: seq<Byte>)
    ensures Parse(Frame(payload)) == if |payload| < 0x1_0000_0000 then Ok(payload) else Err(BadLength)
  {
    FrameFields(payload);
    Pow256Of4();
    BigEndianRoundTrip(VERSION, 2);
    if |payload| < 0x1_0000_0000 {
      BigEndianRoundTrip(|payload|, 4);
    } else {
      assert FromBigEndian(BigEndian(|payload|, 4)) < Pow256(4);
    }
  }

  /** Nothing else is accepted: a file is a session exactly when it is the frame of one. */
  lemma AcceptsOnlyFrames(file: seq<Byte>, payload: seq<Byte>)
    ensures Parse(file) == Ok(payload) <==> |payload| < 0x1_0000_0000 && file == Frame(payload)
  {
    if Parse(file) == Ok(payload) {
      FromBigEndianRoundTrip(file[4..6]);
      FromBigEndianRoundTrip(file[6..HEADER]);
      Pow256Of4();
      assert file == file[..4] + file[4..6] + file[6..HEADER] + file[HEADER..];
    } else if file == Frame(payload) {
      LoadWhatWasStored(payload);
    }
  }

  /** So a file cut short is never taken for a session, whatever it was cut from. */
  lemma NoTornFrame(payload: seq<Byte>, k: nat)
    requires k < |Frame(payload)| && |payload| < 0x1_0000_0000
    ensures Parse(Frame(payload)[..k]).Err?
  {
    var torn := Frame(payload)[..k];
    if Parse(torn).Ok? {
      var p := Parse(torn).value;
      AcceptsOnlyFrames(torn, p);
      FrameFields(p);
      FrameFields(payload);
      assert torn[6..HEADER] == Frame(payload)[6..HEADER];
      Pow256Of4();
      BigEndianRoundTrip(|p|, 4);
      BigEndianRoundTrip(|payload|, 4);
      assert false;
    }
  }

  /** The file byte by byte: "TGSN", a two-byte version of one, the length in four bytes, the payload. */
  lemma FrameLayout(payload: seq<Byte>, i: nat)
    requires i < 10 + |payload|
    ensures Frame(payload)[i] ==
            if i < 4 then [0x54, 0x47, 0x53, 0x4E][i]
            else if i < 6 then [0, 1][i - 4]
            else if i < 10 then |payload| / Pow256(9 - i) % 256
            else payload[i - 10]
  {
    if 4 <= i < 6 {
      BigEndianDigit(VERSION, 2, i - 4);
    } else if 6 <= i < 10 {
      BigEndianDigit(|payload|, 4, i - 6);
    }
  }
}
