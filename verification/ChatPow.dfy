/** The chat proof-of-work preimages: a tagged byte format appended to a buffer and hashed. */
module ChatPow {
  import opened Ledger


  const U32: nat := 0x1_0000_0000
  const CHAT_BITS: nat := 20
  const MAX_NONCE: nat := 10_000_000

  datatype Attachment =
    | Address(id: Id) | CoinId(id: Id) | MixId(id: Id) | Commitment(id: Id)
    | BlockHash(id: Id) | Mirstat(id: Id) | DataHash(id: Id)
    | LicenseChallenge(commitment: Id, height: nat, salt: Id)
    | Signature(sig: Bytes)

  datatype Message = Message(sender: Bytes, timestamp: nat, replyTo: Option<nat>, words: Bytes,
                             attachments: seq<Attachment>)

  /** The integer ranges of the source's types, and a signature whose length the u32 prefix holds. */
  predicate Sized(a: Attachment) {
    match a
    case LicenseChallenge(_, height, _) => height <= U64_MAX
    case Signature(sig) => |sig| < U32
    case _ => true
  }

  predicate AllSized(atts: seq<Attachment>) { forall i :: 0 <= i < |atts| ==> Sized(atts[i]) }

  function Reply(m: Message): nat { if m.replyTo.Some? then m.replyTo.value else 0 }

  predicate WellSized(m: Message) {
    && m.timestamp <= U64_MAX && Reply(m) <= U64_MAX
    && |m.attachments| < U32 && AllSized(m.attachments)
  }

  // ---- Little-endian integers ----

  function Power256(k: nat): (p: nat)
    ensures p > 0
  {
    if k == 0 then 1 else 256 * Power256(k - 1)
  }

  /** The low `k` bytes of `n`, least significant first; `n as u32` is the low four. */
  function Le(n: nat, k: nat): (b: Bytes)
    ensures |b| == k
  {
    if k == 0 then [] else [n % 256] + Le(n / 256, k - 1)
  }

  function Value(b: Bytes): nat {
    if b == [] then 0 else b[0] + 256 * Value(b[1..])
  }

  lemma {:induction false} LeRoundTrip(n: nat, k: nat)
    requires n < Power256(k)
    ensures Value(Le(n, k)) == n
  {
    if k > 0 {
      LeRoundTrip(n / 256, k - 1);
      assert Le(n, k)[1..] == Le(n / 256, k - 1);
    }
  }

  lemma {:induction false} ValueRoundTrip(b: Bytes)
    ensures Value(b) < Power256(|b|) && Le(Value(b), |b|) == b
  {
    if b != [] {
      ValueRoundTrip(b[1..]);
      assert b == [b[0]] + b[1..];
    }
  }

  lemma Widths()
    ensures Power256(4) == U32 && Power256(8) == U64_MAX + 1
  {
    assert Power256(2) == 0x1_0000;
    assert Power256(4) == U32;
    assert Power256(6) == 0x1_0000_0000_0000;
  }

  // ---- Attachments ----

  function Tag(a: Attachment): Byte {
    match a
    case Address(_) => 1
    case CoinId(_) => 2
    case MixId(_) => 3
    case Commitment(_) => 4
    case BlockHash(_) => 5
    case Mirstat(_) => 6
    case DataHash(_) => 7
    case LicenseChallenge(_, _, _) => 8
    case Signature(_) => 9
  }

  function Body(a: Attachment): Bytes {
    match a
    case LicenseChallenge(commitment, height, salt) => commitment + Le(height, 8) + salt
    case Signature(sig) => Le(|sig|, 4) + sig
    case _ => a.id
  }

  function Encode(a: Attachment): Bytes { [Tag(a)] + Body(a) }

  function EncodeAll(atts: seq<Attachment>): Bytes {
    if atts == [] then [] else Encode(atts[0]) + EncodeAll(atts[1..])
  }

  function WithId(tag: Byte, id: Id): Attachment
    requires 1 <= tag <= 7
  {
    if tag == 1 then Address(id) else if tag == 2 then CoinId(id) else if tag == 3 then MixId(id)
    else if tag == 4 then Commitment(id) else if tag == 5 then BlockHash(id)
    else if tag == 6 then Mirstat(id) else DataHash(id)
  }

  /** A reader for one attachment: what the format would mean to a receiver. */
  function Parse(b: Bytes): Option<(Attachment, Bytes)> {
    if b == [] then None
    else
      var tag, rest := b[0], b[1..];
      if 1 <= tag <= 7 then
        if |rest| < 32 then None else Some((WithId(tag, rest[..32]), rest[32..]))
      else if tag == 8 then
        if |rest| < 72 then None
        else Some((LicenseChallenge(rest[..32], Value(rest[32..40]), rest[40..72]), rest[72..]))
      else if tag == 9 then
        if |rest| < 4 then None
        else
          var n := Value(rest[..4]);
          if |rest| < 4 + n then None else Some((Signature(rest[4..4 + n]), rest[4 + n..]))
      else None
  }

  function ParseAll(count: nat, b: Bytes): Option<(seq<Attachment>, Bytes)> {
    if count == 0 then Some(([], b))
    else
      var first := Parse(b);
      if first.None? then None
      else
        var others := ParseAll(count - 1, first.value.1);
        if others.None? then None else Some(([first.value.0] + others.value.0, others.value.1))
  }

  /** The attachment section of the v2 preimage: a u32 count, then the attachments. */
  function Section(atts: seq<Attachment>): Bytes { Le(|atts|, 4) + EncodeAll(atts) }

  function ParseSection(b: Bytes): Option<(seq<Attachment>, Bytes)> {
    if |b| < 4 then None else ParseAll(Value(b[..4]), b[4..])
  }

  lemma ParseReads(a: Attachment, suffix: Bytes)
    requires Sized(a)
    ensures Parse(Encode(a) + suffix) == Some((a, suffix))
  {
    hide Le, Value, Power256;
    var b := Encode(a) + suffix;
    var rest := b[1..];
    assert rest == Body(a) + suffix;
    Widths();
    match a
    case LicenseChallenge(commitment, height, salt) =>
      LeRoundTrip(height, 8);
      assert rest[..32] == commitment && rest[32..40] == Le(height, 8) && rest[40..72] == salt;
      assert rest[72..] == suffix;
    case Signature(sig) =>
      LeRoundTrip(|sig|, 4);
      assert rest[..4] == Le(|sig|, 4);
      assert rest[4..4 + |sig|] == sig && rest[4 + |sig|..] == suffix;
    case _ =>
      assert rest[..32] == a.id && rest[32..] == suffix;
  }

  lemma Rejoin(b: Bytes, i: nat)
    requires i <= |b|
    ensures b == b[..i] + b[i..]
  {
  }

  lemma ChallengeIsExact(rest: Bytes)
    requires |rest| >= 72
    ensures Value(rest[32..40]) <= U64_MAX
    ensures rest == rest[..32] + Le(Value(rest[32..40]), 8) + rest[40..72] + rest[72..]
  {
    hide Le, Value, Power256;
    Widths();
    ValueRoundTrip(rest[32..40]);
  }

  lemma SignatureIsExact(rest: Bytes)
    requires |rest| >= 4 && |rest| >= 4 + Value(rest[..4])
    ensures var n := Value(rest[..4]); n < U32 && rest == Le(n, 4) + rest[4..4 + n] + rest[4 + n..]
  {
    hide Le, Value, Power256;
    Widths();
    ValueRoundTrip(rest[..4]);
  }

  /** Only encodings are read. */
  lemma ParseIsExact(b: Bytes)
    requires Parse(b).Some?
    ensures Sized(Parse(b).value.0) && b == Encode(Parse(b).value.0) + Parse(b).value.1
  {
    hide Le, Value, Power256;
    var tag, rest := b[0], b[1..];
    Rejoin(b, 1);
    if tag <= 7 {
      Rejoin(rest, 32);
    } else if tag == 8 {
      ChallengeIsExact(rest);
    } else {
      SignatureIsExact(rest);
    }
  }

  lemma {:induction false} ParseAllReads(atts: seq<Attachment>, suffix: Bytes)
    requires AllSized(atts)
    ensures ParseAll(|atts|, EncodeAll(atts) + suffix) == Some((atts, suffix))
  {
    hide Parse, Encode;
    if atts != [] {
      var tail := EncodeAll(atts[1..]) + suffix;
      assert EncodeAll(atts) + suffix == Encode(atts[0]) + tail;
      ParseReads(atts[0], tail);
      ParseAllReads(atts[1..], suffix);
      assert atts == [atts[0]] + atts[1..];
    } else {
      assert EncodeAll(atts) + suffix == suffix;
    }
  }

  lemma {:induction false} ParseAllIsExact(count: nat, b: Bytes)
    requires ParseAll(count, b).Some?
    ensures
      var (atts, rest) := ParseAll(count, b).value;
      |atts| == count && AllSized(atts) && b == EncodeAll(atts) + rest
  {
    hide Parse, Encode;
    if count > 0 {
      var (a, tail) := Parse(b).value;
      ParseIsExact(b);
      ParseAllIsExact(count - 1, tail);
      var (others, rest) := ParseAll(count - 1, tail).value;
      assert ([a] + others)[1..] == others;
    }
  }

  /** Bytes are a section followed by a suffix exactly when the reader finds that section and
      that suffix, so a section can be read in one way only, whatever follows it. */
  lemma SectionIsUnique(b: Bytes, atts: seq<Attachment>, suffix: Bytes)
    ensures ParseSection(b) == Some((atts, suffix))
            <==> |atts| < U32 && AllSized(atts) && b == Section(atts) + suffix
  {
    hide Parse, Encode, Le, Value, Power256, AllSized, ParseAll, EncodeAll;
    Widths();
    if |atts| < U32 && AllSized(atts) && b == Section(atts) + suffix {
      LeRoundTrip(|atts|, 4);
      assert b[..4] == Le(|atts|, 4) && b[4..] == EncodeAll(atts) + suffix;
      ParseAllReads(atts, suffix);
    }
    if ParseSection(b) == Some((atts, suffix)) {
      ParseAllIsExact(Value(b[..4]), b[4..]);
      ValueRoundTrip(b[..4]);
      assert b == b[..4] + b[4..];
    }
  }

  // ---- Preimages ----

  function Header(m: Message): Bytes {
    m.sender + Le(m.timestamp, 8) + Le(Reply(m), 8) + m.words
  }

  function PreimageV1(m: Message, nonce: nat): Bytes { Header(m) + Le(nonce, 8) }

  function PreimageV2(m: Message, nonce: nat): Bytes { Header(m) + Section(m.attachments) + Le(nonce, 8) }

  lemma HeaderInjective(m: Message, n: Message)
    requires WellSized(m) && WellSized(n) && |m.sender| == |n.sender|
    requires Header(m) == Header(n)
    ensures m.sender == n.sender && m.timestamp == n.timestamp && Reply(m) == Reply(n) && m.words == n.words
  {
    hide Le, Value, Power256, AllSized;
    Widths();
    var k := |m.sender|;
    assert m.sender == Header(m)[..k] && n.sender == Header(n)[..k];
    assert Le(m.timestamp, 8) == Header(m)[k..k + 8] && Le(n.timestamp, 8) == Header(n)[k..k + 8];
    assert Le(Reply(m), 8) == Header(m)[k + 8..k + 16] && Le(Reply(n), 8) == Header(n)[k + 8..k + 16];
    assert m.words == Header(m)[k + 16..] && n.words == Header(n)[k + 16..];
    LeRoundTrip(m.timestamp, 8);
    LeRoundTrip(n.timestamp, 8);
    LeRoundTrip(Reply(m), 8);
    LeRoundTrip(Reply(n), 8);
  }

  /** What a v2 proof of work binds: for given lengths of sender and words, everything but the
      difference between replying to nothing and replying to message 0. */
  lemma PreimageBinds(m: Message, a: nat, n: Message, b: nat)
    requires WellSized(m) && WellSized(n) && a <= U64_MAX && b <= U64_MAX
    requires |m.sender| == |n.sender| && |m.words| == |n.words|
    ensures PreimageV2(m, a) == PreimageV2(n, b)
            <==> n == m.(replyTo := n.replyTo) && Reply(m) == Reply(n) && a == b
  {
    hide Le, Value, Power256, AllSized, ParseSection, Section;
    if PreimageV2(m, a) == PreimageV2(n, b) {
      var k := |Header(m)|;
      var p, q := PreimageV2(m, a), PreimageV2(n, b);
      assert Header(m) == p[..k] && Header(n) == q[..k];
      HeaderInjective(m, n);
      assert p[k..] == Section(m.attachments) + Le(a, 8);
      assert q[k..] == Section(n.attachments) + Le(b, 8);
      SectionIsUnique(p[k..], m.attachments, Le(a, 8));
      SectionIsUnique(p[k..], n.attachments, Le(b, 8));
      Widths();
      LeRoundTrip(a, 8);
      LeRoundTrip(b, 8);
    }
  }

  predicate Tail(b: Byte) { 0x80 <= b <= 0xBF }

  /** The UTF-8 encoding of one character. */
  predicate IsChar(c: Bytes) {
    || (|c| == 1 && c[0] <= 0x7F)
    || (|c| == 2 && 0xC2 <= c[0] <= 0xDF && Tail(c[1]))
    || (|c| == 3 && Tail(c[1]) && Tail(c[2]) && 0xE0 <= c[0] <= 0xEF
        && (c[0] == 0xE0 ==> c[1] >= 0xA0) && (c[0] == 0xED ==> c[1] <= 0x9F))
    || (|c| == 4 && Tail(c[1]) && Tail(c[2]) && Tail(c[3]) && 0xF0 <= c[0] <= 0xF4
        && (c[0] == 0xF0 ==> c[1] >= 0x90) && (c[0] == 0xF4 ==> c[1] <= 0x8F))
  }

  predicate EndsInChar(s: Bytes, k: nat) { 1 <= k <= 4 && k <= |s| && IsChar(s[|s| - k..]) }

  /** What a sender can be. */
  ghost predicate Utf8(s: Bytes)
    decreases |s|
  {
    s == [] || exists k: nat :: EndsInChar(s, k) && Utf8(s[..|s| - k])
  }

  /** The message `k` bytes shorter in its sender and longer in its words whose fixed-width fields
      hold the bytes before them. */
  function Shifted(m: Message, k: nat): Message
    requires k <= 8 && k <= |m.sender|
  {
    var n := |m.sender| - k;
    var t, r := Le(m.timestamp, 8), Le(Reply(m), 8);
    Message(m.sender[..n], Value(m.sender[n..] + t[..8 - k]), Some(Value(t[8 - k..] + r[..8 - k])), r[8 - k..] + m.words,
            m.attachments)
  }

  lemma ShiftedAlike(m: Message, nonce: nat, k: nat)
    requires WellSized(m) && 1 <= k <= 8 && k <= |m.sender|
    ensures WellSized(Shifted(m, k)) && Shifted(m, k) != m
    ensures PreimageV2(Shifted(m, k), nonce) == PreimageV2(m, nonce)
  {
    hide Le, Value, Power256, AllSized, Section;
    var i := |m.sender| - k;
    var t, r := Le(m.timestamp, 8), Le(Reply(m), 8);
    var n := Shifted(m, k);
    Widths();
    ValueRoundTrip(m.sender[i..] + t[..8 - k]);
    ValueRoundTrip(t[8 - k..] + r[..8 - k]);
    assert Header(n) == m.sender[..i] + (m.sender[i..] + t[..8 - k]) + (t[8 - k..] + r[..8 - k]) + (r[8 - k..] + m.words);
    assert Header(n) == Header(m);
  }

  /** Without the length condition the binding fails for every message that has a sender: with the
      sender's last character moved out of it, another message has the same preimage. */
  lemma LengthsMatter(m: Message, nonce: nat)
    requires WellSized(m) && Utf8(m.sender) && m.sender != []
    ensures exists n: Message :: n != m && WellSized(n) && Utf8(n.sender) && PreimageV2(n, nonce) == PreimageV2(m, nonce)
  {
    hide WellSized, PreimageV2, IsChar;
    var k: nat :| EndsInChar(m.sender, k) && Utf8(m.sender[..|m.sender| - k]);
    ShiftedAlike(m, nonce, k);
    assert Shifted(m, k).sender == m.sender[..|m.sender| - k];
  }

  /** A message never has the same preimage in both versions, but the v1 preimage of a message
      whose words end in the encoded attachments is a v2 preimage. */
  lemma VersionsDiffer(m: Message, a: nat, b: nat)
    ensures PreimageV1(m, a) != PreimageV2(m, b)
    ensures PreimageV1(m.(words := m.words + Section(m.attachments)), b) == PreimageV2(m, b)
  {
    hide Le, EncodeAll;
    assert |PreimageV1(m, a)| < |PreimageV2(m, b)|;
    var s := Section(m.attachments);
    assert Header(m.(words := m.words + s)) == Header(m) + s;
  }

  // ---- The operations ----

  lemma {:induction false} EncodeAllAppends(atts: seq<Attachment>, i: nat)
    requires i < |atts|
    ensures EncodeAll(atts[..i + 1]) == EncodeAll(atts[..i]) + Encode(atts[i])
  {
    hide Encode;
    var s := atts[..i + 1];
    if i > 0 {
      EncodeAllAppends(atts[1..], i - 1);
      assert s[1..] == atts[1..][..i] && atts[..i][1..] == atts[1..][..i - 1];
    } else {
      assert s[1..] == [] && atts[..0] == [];
    }
  }

  /** `verify_chat_pow_v2`: the buffer it hashes is the preimage. `zeros` counts the leading zero
      bits of a digest. */
  method VerifyV2(zeros: Bytes -> nat, m: Message, nonce: nat) returns (ok: bool)
    ensures ok <==> zeros(PreimageV2(m, nonce)) >= CHAT_BITS
  {
    hide Le, Encode;
    var data: Bytes := m.sender;
    data := data + Le(m.timestamp, 8);
    data := data + Le(Reply(m), 8);
    data := data + m.words;
    data := data + Le(|m.attachments|, 4);
    ghost var head := data;
    for i := 0 to |m.attachments|
      invariant data == head + EncodeAll(m.attachments[..i])
    {
      EncodeAllAppends(m.attachments, i);
      data := AppendAttachment(data, m.attachments[i]);
    }
    assert m.attachments[..|m.attachments|] == m.attachments;
    data := data + Le(nonce, 8);
    assert data == PreimageV2(m, nonce);
    ok := zeros(data) >= CHAT_BITS;
  }

  /** One arm of the match inside the loop. */
  method AppendAttachment(buffer: Bytes, a: Attachment) returns (data: Bytes)
    ensures data == buffer + Encode(a)
  {
    hide Le;
    data := buffer + [Tag(a)];
    match a {
      case LicenseChallenge(commitment, height, salt) =>
        data := data + commitment;
        data := data + Le(height, 8);
        data := data + salt;
      case Signature(sig) =>
        data := data + Le(|sig|, 4);
        data := data + sig;
      case _ =>
        data := data + a.id;
    }
  }

  /** `mine_chat_pow_v2`: the least nonce that passes, or the panic when none up to the bound does. */
  method MineV2(zeros: Bytes -> nat, m: Message) returns (found: Option<nat>)
    ensures found.Some? ==> found.value <= MAX_NONCE && zeros(PreimageV2(m, found.value)) >= CHAT_BITS
    ensures forall k: nat | k < (if found.Some? then found.value else MAX_NONCE + 1) ::
              zeros(PreimageV2(m, k)) < CHAT_BITS
  {
    hide PreimageV2;
    var n: nat := 0;
    while true
      invariant n <= MAX_NONCE
      invariant forall k: nat | k < n :: zeros(PreimageV2(m, k)) < CHAT_BITS
      decreases MAX_NONCE - n
    {
      var ok := VerifyV2(zeros, m, n);
      if ok { return Some(n); }
      n := n + 1;
      if n > MAX_NONCE { return None; }
    }
  }
}
