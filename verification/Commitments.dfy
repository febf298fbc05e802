/** The on-chain commitment wire format (protocol/commitments.py) and its storage in fields
    (chain/client.py). */
module Commitments {
  import opened Wrappers
  import opened Text

  const PREFIX := "ail1"
  const COMMITMENT_MAX_BYTES := 256
  const COMMITMENT_FIELD_BYTES := 128
  const SEPARATOR := '|'

  datatype CommitmentError =
    | SeparatorInField
    | NewlineInField
    | NotADigest
    | UrlNotSecure
    | NoChallenges
    | OverBudget
    | NoFields
    | ForeignPrefix
    | UnknownKind
    | WrongFieldCount
    | CountNotANumber
    | OtherRound
    | OtherSalt
    | SaltTooLate

  datatype Commitment =
    | Submission(roundId: string, bundleDigest: string, capsuleDigest: string, artifactUrl: string)
    | Salt(roundId: string, saltCommitment: string)
    | Pack(roundId: string, packHash: string, saltCommitment: string, challengeCount: int, version: string)

  // ---------------------------------------------------------------- construction

  function Check(field: string): Option<CommitmentError> {
    if SEPARATOR in field then Some(SeparatorInField)
    else if '\n' in field || '\r' in field then Some(NewlineInField)
    else None
  }

  predicate IsDigest(s: string) {
    |s| == 64 && forall i :: 0 <= i < |s| ==> IsHexDigit(s[i])
  }

  /** A digest as bare lower-case hex, with or without its algorithm's prefix. */
  function Hex64(value: string): Result<string, CommitmentError> {
    var raw := Lower(RemovePrefix(value, "sha256:"));
    if IsDigest(raw) then Success(raw) else Failure(NotADigest)
  }

  lemma Hex64Normal(value: string)
    ensures Hex64(value).Success? ==> IsDigest(Hex64(value).value)
    ensures IsDigest(value) ==> Hex64(value) == Success(value)
  {
    if IsDigest(value) {
      LowerHex(value);
      assert value[0] != "sha256:"[0];
    }
  }

  /** A digest as the canonical encoder writes it, its algorithm in front, is that digest. */
  lemma Hex64DropsAlgorithm(digest: string)
    requires IsDigest(digest)
    ensures Hex64("sha256:" + digest) == Success(digest)
  {
    assert ("sha256:" + digest)[7..] == digest;
    LowerHex(digest);
  }

  /** The checks of construction, in order; digests are normalised. */
  function Construct(c: Commitment): Result<Commitment, CommitmentError> {
    match c
    case Submission(roundId, bundle, capsule, url) =>
      var b, k := Hex64(bundle), Hex64(capsule);
      if b.Failure? then Failure(b.error)
      else if k.Failure? then Failure(k.error)
      else if Check(roundId).Some? then Failure(Check(roundId).value)
      else if Check(url).Some? then Failure(Check(url).value)
      else if !("https://" <= url || "ipfs://" <= url) then Failure(UrlNotSecure)
      else Success(Submission(roundId, b.value, k.value, url))
    case Salt(roundId, salt) =>
      var s := Hex64(salt);
      if s.Failure? then Failure(s.error)
      else if Check(roundId).Some? then Failure(Check(roundId).value)
      else Success(Salt(roundId, s.value))
    case Pack(roundId, hash, salt, count, version) =>
      var h, s := Hex64(hash), Hex64(salt);
      if h.Failure? then Failure(h.error)
      else if s.Failure? then Failure(s.error)
      else if Check(roundId).Some? then Failure(Check(roundId).value)
      else if Check(version).Some? then Failure(Check(version).value)
      else if count <= 0 then Failure(NoChallenges)
      else Success(Pack(roundId, h.value, s.value, count, version))
  }

  /** A commitment that construction leaves as it is. */
  predicate Valid(c: Commitment) {
    Construct(c) == Success(c)
  }

  lemma ConstructValid(c: Commitment)
    ensures Construct(c).Success? ==> Valid(Construct(c).value)
  {
    match c
    case Submission(_, bundle, capsule, _) =>
      Hex64Normal(bundle);
      Hex64Normal(capsule);
      if Construct(c).Success? {
        Hex64Normal(Hex64(bundle).value);
        Hex64Normal(Hex64(capsule).value);
      }
    case Salt(_, salt) =>
      Hex64Normal(salt);
      if Construct(c).Success? {
        Hex64Normal(Hex64(salt).value);
      }
    case Pack(_, hash, salt, _, _) =>
      Hex64Normal(hash);
      Hex64Normal(salt);
      if Construct(c).Success? {
        Hex64Normal(Hex64(hash).value);
        Hex64Normal(Hex64(salt).value);
      }
  }

  // ---------------------------------------------------------------- encoding

  function Tag(c: Commitment): string {
    match c
    case Submission(_, _, _, _) => "sub"
    case Salt(_, _) => "salt"
    case Pack(_, _, _, _, _) => "pack"
  }

  function Header(c: Commitment): string {
    PREFIX + ":" + Tag(c)
  }

  function Fields(c: Commitment): (fields: seq<string>)
    ensures |fields| >= 2
  {
    match c
    case Submission(roundId, bundle, capsule, url) => [roundId, bundle, capsule, url]
    case Salt(roundId, salt) => [roundId, salt]
    case Pack(roundId, hash, salt, count, version) => [roundId, hash, salt, Str(count), version]
  }

  function LastField(c: Commitment): string {
    Fields(c)[|Fields(c)| - 1]
  }

  function TextOf(c: Commitment): string {
    Join([Header(c)] + Fields(c), SEPARATOR)
  }

  function Encode(c: Commitment): Result<string, CommitmentError> {
    if |Utf8(TextOf(c))| > COMMITMENT_MAX_BYTES then Failure(OverBudget) else Success(TextOf(c))
  }

  lemma DigestHasNoSeparator(s: string)
    requires IsDigest(s)
    ensures SEPARATOR !in s && !EndsInSpace(s)
  {
  }

  /** No field of a valid commitment holds the separator. */
  lemma FieldsLackSeparator(c: Commitment)
    requires Valid(c)
    ensures NoneHas([Header(c)] + Fields(c), SEPARATOR)
  {
    var fields := Fields(c);
    HeaderLacksSeparator(c);
    match c
    case Submission(_, bundle, capsule, _) =>
      NormalDigest(bundle);
      NormalDigest(capsule);
    case Salt(_, salt) =>
      NormalDigest(salt);
    case Pack(_, hash, salt, count, _) =>
      NormalDigest(hash);
      NormalDigest(salt);
      NumberHasNoSeparator(count);
  }

  lemma HeaderLacksSeparator(c: Commitment)
    ensures SEPARATOR !in Header(c)
  {
    assert SEPARATOR !in PREFIX && SEPARATOR !in ":" && SEPARATOR !in Tag(c);
  }

  lemma NormalDigest(value: string)
    requires Hex64(value) == Success(value)
    ensures SEPARATOR !in value
  {
    Hex64Normal(value);
    DigestHasNoSeparator(value);
  }

  lemma NumberHasNoSeparator(n: nat)
    ensures SEPARATOR !in Str(n)
  {
    ParseStr(n);
  }

  // ---------------------------------------------------------------- decoding

  function Decode(raw: string): Result<Commitment, CommitmentError> {
    var (header, remainder) := Partition(Strip(raw), SEPARATOR);
    if remainder.None? then Failure(NoFields)
    else
      var (prefix, tail) := Partition(header, ':');
      var tag := if tail.Some? then tail.value else "";
      if prefix != PREFIX then Failure(ForeignPrefix)
      else DecodeFields(tag, Split(remainder.value, SEPARATOR))
  }

  function DecodeFields(tag: string, fields: seq<string>): Result<Commitment, CommitmentError> {
    if tag == "sub" then
      if |fields| != 4 then Failure(WrongFieldCount)
      else Construct(Submission(fields[0], fields[1], fields[2], fields[3]))
    else if tag == "salt" then
      if |fields| != 2 then Failure(WrongFieldCount) else Construct(Salt(fields[0], fields[1]))
    else if tag == "pack" then
      if |fields| != 5 then Failure(WrongFieldCount)
      else
        var count := ParseInt(fields[3]);
        if count.None? then Failure(CountNotANumber)
        else Construct(Pack(fields[0], fields[1], fields[2], count.value, fields[4]))
    else Failure(UnknownKind)
  }

  lemma TextShape(c: Commitment)
    ensures TextOf(c) == Header(c) + [SEPARATOR] + Join(Fields(c), SEPARATOR)
    ensures TextOf(c)[0] == 'a' && TextOf(c)[|TextOf(c)| - 1] ==
              (if LastField(c) == "" then SEPARATOR else LastField(c)[|LastField(c)| - 1])
  {
    assert ([Header(c)] + Fields(c))[1..] == Fields(c);
    JoinEnds(Fields(c), SEPARATOR);
  }

  lemma {:induction false} JoinEnds(pieces: seq<string>, sep: char)
    requires |pieces| >= 2
    ensures var text := Join(pieces, sep); var last := pieces[|pieces| - 1];
            text != "" && text[|text| - 1] == if last == "" then sep else last[|last| - 1]
  {
    if |pieces| == 2 {
      assert pieces[1..] == [pieces[1]];
    } else {
      JoinEnds(pieces[1..], sep);
    }
  }

  lemma {:induction false} JoinLast(pieces: seq<string>, sep: char)
    requires |pieces| >= 2
    ensures Join(pieces, sep) == Join(pieces[..|pieces| - 1], sep) + [sep] + pieces[|pieces| - 1]
  {
    if |pieces| > 2 {
      JoinLast(pieces[1..], sep);
      assert pieces[..|pieces| - 1][1..] == pieces[1..][..|pieces| - 2];
    }
  }

  lemma TagsDiffer()
    ensures "sub" != "salt" && "sub" != "pack" && "salt" != "pack"
  {
    assert "salt"[0] != "pack"[0];
  }

  lemma DecodeHeader(c: Commitment, rest: string)
    ensures Partition(Header(c) + [SEPARATOR] + rest, SEPARATOR) == (Header(c), Some(rest))
    ensures Partition(Header(c), ':') == (PREFIX, Some(Tag(c)))
  {
    assert SEPARATOR !in PREFIX && ':' !in PREFIX && SEPARATOR !in Tag(c);
    PartitionFirst(Header(c), SEPARATOR, rest);
    PartitionFirst(PREFIX, ':', Tag(c));
    assert Header(c) == PREFIX + [':'] + Tag(c);
  }

  lemma DecodeOwnFields(c: Commitment)
    requires Valid(c)
    ensures DecodeFields(Tag(c), Fields(c)) == Success(c)
  {
    TagsDiffer();
    if c.Pack? {
      ParseStr(c.challengeCount);
    }
  }

  /** What is decoded is valid, and its last field does not end in a space: the text was stripped. */
  lemma DecodedIsClean(raw: string)
    ensures Decode(raw).Success? ==> Valid(Decode(raw).value) && !EndsInSpace(LastField(Decode(raw).value))
  {
    if Decode(raw).Success? {
      var tag, fields := DecodedFields(raw);
      DecodedFieldsAreClean(tag, fields);
    }
  }

  lemma DecodedFields(raw: string) returns (tag: string, fields: seq<string>)
    requires Decode(raw).Success?
    ensures Decode(raw) == DecodeFields(tag, fields) && fields != [] && !EndsInSpace(fields[|fields| - 1])
  {
    var text := Strip(raw);
    StripRightEnds(StripLeft(raw));
    var (header, remainder) := Partition(text, SEPARATOR);
    PartitionEnds(text, SEPARATOR);
    SplitEnds(remainder.value, SEPARATOR);
    var (prefix, tail) := Partition(header, ':');
    tag := if tail.Some? then tail.value else "";
    fields := Split(remainder.value, SEPARATOR);
  }

  lemma DecodedFieldsAreClean(tag: string, fields: seq<string>)
    requires fields != [] && !EndsInSpace(fields[|fields| - 1]) && DecodeFields(tag, fields).Success?
    ensures var c := DecodeFields(tag, fields).value; Valid(c) && !EndsInSpace(LastField(c))
  {
    var c := DecodeFields(tag, fields).value;
    if tag == "sub" {
      ConstructValid(Submission(fields[0], fields[1], fields[2], fields[3]));
    } else if tag == "salt" {
      ConstructValid(Salt(fields[0], fields[1]));
      Hex64Normal(c.saltCommitment);
      DigestHasNoSeparator(c.saltCommitment);
    } else {
      PackFieldsAreClean(fields);
    }
  }

  lemma PackFieldsAreClean(fields: seq<string>)
    requires |fields| == 5 && !EndsInSpace(fields[4]) && ParseInt(fields[3]).Some?
    requires Construct(Pack(fields[0], fields[1], fields[2], ParseInt(fields[3]).value, fields[4])).Success?
    ensures var c := Construct(Pack(fields[0], fields[1], fields[2], ParseInt(fields[3]).value, fields[4])).value;
            Valid(c) && !EndsInSpace(LastField(c))
  {
    ConstructValid(Pack(fields[0], fields[1], fields[2], ParseInt(fields[3]).value, fields[4]));
  }

  lemma {:induction false} PartitionEnds(s: string, sep: char)
    ensures var (_, tail) := Partition(s, sep);
            tail.Some? && tail.value != "" ==> s != "" && tail.value[|tail.value| - 1] == s[|s| - 1]
  {
    if s != "" && s[0] != sep {
      PartitionEnds(s[1..], sep);
    }
  }

  /** A commitment with its last field free of trailing space, as the chain gives it back. */
  function Trimmed(c: Commitment): Commitment {
    match c
    case Submission(roundId, bundle, capsule, url) => Submission(roundId, bundle, capsule, StripRight(url))
    case Salt(roundId, salt) => Salt(roundId, StripRight(salt))
    case Pack(roundId, hash, salt, count, version) => Pack(roundId, hash, salt, count, StripRight(version))
  }

  /** The text up to the last separator, and that. */
  function Lead(c: Commitment): string {
    Join([Header(c)] + Fields(c)[..|Fields(c)| - 1], SEPARATOR) + [SEPARATOR]
  }

  lemma LeadAndLast(c: Commitment)
    ensures TextOf(c) == Lead(c) + LastField(c)
  {
    var pieces := [Header(c)] + Fields(c);
    JoinLast(pieces, SEPARATOR);
    assert pieces[..|pieces| - 1] == [Header(c)] + Fields(c)[..|Fields(c)| - 1];
  }

  lemma TrimmedKeepsLead(c: Commitment)
    ensures Lead(Trimmed(c)) == Lead(c) && LastField(Trimmed(c)) == StripRight(LastField(c))
  {
    assert Fields(Trimmed(c))[..|Fields(c)| - 1] == Fields(c)[..|Fields(c)| - 1];
  }

  /** Stripping a commitment's text strips its last field. */
  lemma StripText(c: Commitment)
    ensures Strip(TextOf(c)) == TextOf(Trimmed(c)) && Strip(TextOf(Trimmed(c))) == TextOf(Trimmed(c))
  {
    LeadAndLast(c);
    LeadAndLast(Trimmed(c));
    TrimmedKeepsLead(c);
    TextShape(c);
    TextShape(Trimmed(c));
    StripRightAfter(Lead(c), LastField(c));
    StripRightEnds(LastField(c));
    StripNothing(TextOf(Trimmed(c)));
  }

  lemma CheckFront(field: string, front: string)
    requires front <= field && Check(field).None?
    ensures Check(front).None?
  {
  }

  lemma TrimmedUrl(url: string)
    requires "https://" <= url || "ipfs://" <= url
    ensures "https://" <= StripRight(url) || "ipfs://" <= StripRight(url)
  {
    if "https://" <= url {
      StripRightKeeps("https://", url);
    } else {
      StripRightKeeps("ipfs://", url);
    }
  }

  lemma TrimmedValid(c: Commitment)
    requires Valid(c)
    ensures Valid(Trimmed(c)) && (Trimmed(c) == c <==> !EndsInSpace(LastField(c)))
  {
    StripRightPart(LastField(c));
    match c
    case Submission(_, _, _, url) =>
      TrimmedUrl(url);
      CheckFront(url, StripRight(url));
    case Salt(_, salt) =>
      Hex64Normal(salt);
      DigestHasNoSeparator(salt);
    case Pack(_, _, _, _, version) =>
      CheckFront(version, StripRight(version));
  }

  /** A valid commitment's text reads back as the commitment with its last field trimmed, so as the
      commitment itself exactly when that field does not end in a space. */
  lemma TextReadsBack(c: Commitment)
    requires Valid(c)
    ensures Decode(TextOf(c)) == Success(Trimmed(c))
    ensures Decode(TextOf(c)) == Success(c) <==> !EndsInSpace(LastField(c))
  {
    var t := Trimmed(c);
    TrimmedValid(c);
    StripText(c);
    TextShape(t);
    DecodeHeader(t, Join(Fields(t), SEPARATOR));
    FieldsLackSeparator(t);
    FieldsAlone(t);
    SplitJoin(Fields(t), SEPARATOR);
    DecodeOwnFields(t);
  }

  lemma RoundTrip(c: Commitment)
    requires Valid(c) && Encode(c).Success?
    ensures Decode(Encode(c).value) == Success(Trimmed(c))
    ensures Decode(Encode(c).value) == Success(c) <==> !EndsInSpace(LastField(c))
  {
    TextReadsBack(c);
  }

  lemma FieldsAlone(c: Commitment)
    requires NoneHas([Header(c)] + Fields(c), SEPARATOR)
    ensures NoneHas(Fields(c), SEPARATOR)
  {
    forall i | 0 <= i < |Fields(c)| ensures SEPARATOR !in Fields(c)[i] {
      assert ([Header(c)] + Fields(c))[i + 1] == Fields(c)[i];
    }
  }

  /** A commitment read from any text, encoded again within the budget, reads back the same. */
  lemma ReencodeRoundTrip(raw: string)
    requires Decode(raw).Success? && Encode(Decode(raw).value).Success?
    ensures Decode(Encode(Decode(raw).value).value) == Decode(raw)
  {
    DecodedIsClean(raw);
    RoundTrip(Decode(raw).value);
  }

  /** Two valid commitments of any kinds with one text are one commitment. */
  lemma EncodeInjective(a: Commitment, b: Commitment)
    requires Valid(a) && Valid(b) && TextOf(a) == TextOf(b)
    ensures a == b
  {
    FieldsLackSeparator(a);
    FieldsLackSeparator(b);
    SplitJoin([Header(a)] + Fields(a), SEPARATOR);
    SplitJoin([Header(b)] + Fields(b), SEPARATOR);
    var x, y := [Header(a)] + Fields(a), [Header(b)] + Fields(b);
    assert x[0] == y[0] && x[1..] == Fields(a) && y[1..] == Fields(b);
    SameHeaderSameTag(a, b);
    DecodeOwnFields(a);
    DecodeOwnFields(b);
  }

  lemma SameHeaderSameTag(a: Commitment, b: Commitment)
    requires Header(a) == Header(b)
    ensures Tag(a) == Tag(b)
  {
    DecodeHeader(a, "");
    DecodeHeader(b, "");
  }

  // ---------------------------------------------------------------- salt timing

  /** The checks that a pack's salt was committed, for its round, before the randomness. */
  function VerifySaltTiming(pack: Commitment, observed: Commitment, saltBlock: int,
                            randomnessBlock: int): Option<CommitmentError>
    requires pack.Pack? && observed.Salt?
  {
    if observed.roundId != pack.roundId then Some(OtherRound)
    else if observed.saltCommitment != pack.saltCommitment then Some(OtherSalt)
    else if saltBlock >= randomnessBlock then Some(SaltTooLate)
    else None
  }

  // ---------------------------------------------------------------- storage in fields

  /** How the chain hands back one value of a stored field: bytes, hex text, or something else. */
  datatype FieldValue = Raw(bytes: seq<Byte>) | HexText(text: string) | Foreign

  /** A payload in pieces of at most `COMMITMENT_FIELD_BYTES`, in order. */
  function Chunks(bytes: seq<Byte>): (chunks: seq<seq<Byte>>)
    ensures forall i :: 0 <= i < |chunks| ==> 0 < |chunks[i]| <= COMMITMENT_FIELD_BYTES
    ensures chunks == [] <==> bytes == []
    decreases |bytes|
  {
    if bytes == [] then []
    else if |bytes| <= COMMITMENT_FIELD_BYTES then [bytes]
    else [bytes[..COMMITMENT_FIELD_BYTES]] + Chunks(bytes[COMMITMENT_FIELD_BYTES..])
  }

  function Concat(chunks: seq<seq<Byte>>): seq<Byte> {
    if chunks == [] then [] else chunks[0] + Concat(chunks[1..])
  }

  lemma {:induction false} ChunksConcat(bytes: seq<Byte>)
    ensures Concat(Chunks(bytes)) == bytes
    decreases |bytes|
  {
    if bytes != [] && |bytes| <= COMMITMENT_FIELD_BYTES {
      assert [bytes][1..] == [];
    } else if bytes != [] {
      ChunksConcat(bytes[COMMITMENT_FIELD_BYTES..]);
    }
  }

  /** One stored value stands for a chunk, whichever way the chain renders it. */
  predicate Renders(value: FieldValue, chunk: seq<Byte>) {
    value == Raw(chunk) || value == HexText("0x" + ToHex(chunk)) || value == HexText(ToHex(chunk))
  }

  function BytesOf(value: FieldValue): Option<seq<Byte>> {
    match value
    case Raw(bytes) => Some(bytes)
    case HexText(text) => FromHex(RemovePrefix(text, "0x"))
    case Foreign => Some([])
  }

  /** Rejoins the stored values into the text that was published; "" when they are no text. */
  method CommitmentText(stored: seq<FieldValue>) returns (text: string)
    ensures (exists k :: 0 <= k < |stored| && BytesOf(stored[k]).None?) ==> text == ""
    ensures (forall k :: 0 <= k < |stored| ==> BytesOf(stored[k]).Some?) ==>
              text == match DecodeUtf8(Joined(stored)) { case Some(t) => t case None => "" }
  {
    var payload: seq<Byte> := [];
    for k := 0 to |stored|
      invariant forall i :: 0 <= i < k ==> BytesOf(stored[i]).Some?
      invariant payload == Joined(stored[..k])
    {
      var bytes := BytesOf(stored[k]);
      if bytes.None? {
        return "";
      }
      assert stored[..k + 1][..k] == stored[..k];
      payload := payload + bytes.value;
    }
    assert stored[..|stored|] == stored;
    var decoded := DecodeUtf8(payload);
    text := if decoded.Some? then decoded.value else "";
  }

  function Joined(stored: seq<FieldValue>): seq<Byte>
    requires forall k :: 0 <= k < |stored| ==> BytesOf(stored[k]).Some?
  {
    if stored == [] then [] else Joined(stored[..|stored| - 1]) + BytesOf(stored[|stored| - 1]).value
  }

  lemma RenderedBytes(value: FieldValue, chunk: seq<Byte>)
    requires Renders(value, chunk)
    ensures BytesOf(value) == Some(chunk)
  {
    HexRoundTrip(chunk);
    if value == HexText("0x" + ToHex(chunk)) {
      assert ("0x" + ToHex(chunk))[2..] == ToHex(chunk);
    } else if value == HexText(ToHex(chunk)) {
      if chunk != [] {
        assert ToHex(chunk)[1] != 'x';
      }
    }
  }

  lemma {:induction false} JoinedIsConcat(stored: seq<FieldValue>, chunks: seq<seq<Byte>>)
    requires |stored| == |chunks| && forall k :: 0 <= k < |stored| ==> Renders(stored[k], chunks[k])
    ensures forall k :: 0 <= k < |stored| ==> BytesOf(stored[k]).Some?
    ensures Joined(stored) == Concat(chunks)
  {
    forall k | 0 <= k < |stored| ensures BytesOf(stored[k]) == Some(chunks[k]) {
      RenderedBytes(stored[k], chunks[k]);
    }
    if stored != [] {
      var n := |stored| - 1;
      JoinedIsConcat(stored[..n], chunks[..n]);
      ConcatLast(chunks[..n], chunks[n]);
      assert chunks == chunks[..n] + [chunks[n]];
    }
  }

  lemma {:induction false} ConcatLast(front: seq<seq<Byte>>, last: seq<Byte>)
    ensures Concat(front + [last]) == Concat(front) + last
  {
    if front == [] {
      assert front + [last] == [last] && [last][1..] == [];
    } else {
      ConcatLast(front[1..], last);
      assert (front + [last])[1..] == front[1..] + [last];
      assert front[0] + (Concat(front[1..]) + last) == front[0] + Concat(front[1..]) + last;
    }
  }

  /** However the chain renders the pieces in which a text was stored, rejoining them gives the
      text, though a character may have been cut between two pieces. */
  lemma StoredTextReadsBack(text: string, stored: seq<FieldValue>)
    requires var chunks := Chunks(Utf8(text));
             |stored| == |chunks| && forall k :: 0 <= k < |stored| ==> Renders(stored[k], chunks[k])
    ensures (forall k :: 0 <= k < |stored| ==> BytesOf(stored[k]).Some?) && DecodeUtf8(Joined(stored)) == Some(text)
  {
    JoinedIsConcat(stored, Chunks(Utf8(text)));
    ChunksConcat(Utf8(text));
    Utf8RoundTrip(text);
  }

  /** From a commitment through the chain's fields and back. */
  method ReadBack(c: Commitment, stored: seq<FieldValue>) returns (r: Result<Commitment, CommitmentError>)
    requires Valid(c) && Encode(c).Success?
    requires var chunks := Chunks(Utf8(Encode(c).value));
             |stored| == |chunks| && forall k :: 0 <= k < |stored| ==> Renders(stored[k], chunks[k])
    ensures r == Success(c) <==> !EndsInSpace(LastField(c))
  {
    StoredTextReadsBack(Encode(c).value, stored);
    RoundTrip(c);
    var text := CommitmentText(stored);
    r := Decode(text);
  }
}
