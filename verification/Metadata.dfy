/** Licence metadata on chain: splitting it into headed burns and putting it together again from
    the burns of a block, in whatever order they arrive. */
module Metadata {
  import opened Ledger
  import opened Collections

  const CHUNK_DATA_SIZE: nat := 78

  /** A burn read as a chunk: index, total, data. */
  datatype Chunk = Chunk(index: Byte, total: Byte, data: Bytes)

  // ---- Splitting ----

  function Count(meta: Bytes): nat { (|meta| + CHUNK_DATA_SIZE - 1) / CHUNK_DATA_SIZE }

  function Offset(meta: Bytes, i: nat): nat {
    if CHUNK_DATA_SIZE * i < |meta| then CHUNK_DATA_SIZE * i else |meta|
  }

  function Piece(meta: Bytes, i: nat): Bytes { meta[Offset(meta, i)..Offset(meta, i + 1)] }

  /** The `i`-th burn. Index and total are cut to a byte. */
  function Payload(meta: Bytes, i: nat): Bytes { [i % 256, Count(meta) % 256] + Piece(meta, i) }

  function Payloads(meta: Bytes): (p: seq<Bytes>)
    ensures |p| == Count(meta)
    ensures forall i :: 0 <= i < |p| ==> p[i] == Payload(meta, i)
  {
    seq(Count(meta), i requires 0 <= i < Count(meta) => Payload(meta, i))
  }

  /** The chunking loop of `wallet_issue_license`. */
  method Split(meta: Bytes) returns (burns: seq<Bytes>)
    ensures burns == Payloads(meta)
  {
    hide Payload;
    var total := (|meta| + CHUNK_DATA_SIZE - 1) / CHUNK_DATA_SIZE;
    burns := [];
    for i := 0 to total
      invariant |burns| == i
      invariant forall k :: 0 <= k < i ==> burns[k] == Payload(meta, k)
    {
      var start := CHUNK_DATA_SIZE * i;
      var end := if start + CHUNK_DATA_SIZE < |meta| then start + CHUNK_DATA_SIZE else |meta|;
      PayloadIs(meta, i, end);
      burns := burns + [[i % 256, total % 256] + meta[start..end]];
    }
  }

  lemma PayloadIs(meta: Bytes, i: nat, end: nat)
    requires i < Count(meta)
    requires end == if CHUNK_DATA_SIZE * i + CHUNK_DATA_SIZE < |meta| then CHUNK_DATA_SIZE * i + CHUNK_DATA_SIZE else |meta|
    ensures CHUNK_DATA_SIZE * i <= end
    ensures Payload(meta, i) == [i % 256, Count(meta) % 256] + meta[CHUNK_DATA_SIZE * i..end]
  {
    assert CHUNK_DATA_SIZE * i < |meta|;
  }

  // ---- Putting together ----

  /** A burn that reads as a chunk. */
  function Read(p: Bytes): Option<Chunk> {
    if |p| >= 2 && p[1] > 0 && p[0] < p[1] then Some(Chunk(p[0], p[1], p[2..])) else None
  }

  function ReadAll(payloads: seq<Bytes>): seq<Chunk> {
    if payloads == [] then []
    else if Read(payloads[0]).Some? then [Read(payloads[0]).value] + ReadAll(payloads[1..])
    else ReadAll(payloads[1..])
  }

  /** The chunks of a total, in arrival order. */
  function Group(chunks: seq<Chunk>, total: Byte): seq<Chunk> {
    if chunks == [] then []
    else if chunks[0].total == total then [chunks[0]] + Group(chunks[1..], total)
    else Group(chunks[1..], total)
  }

  function IndexOf(c: Chunk): nat { c.index }

  /** `sort_by_key` on the index: stable, so equal indices keep their order. */
  function Sorted(s: seq<Chunk>): seq<Chunk> { SortBy(IndexOf, s) }

  function Joined(s: seq<Chunk>): Bytes {
    if s == [] then [] else s[0].data + Joined(s[1..])
  }

  /** The metadata recovered for a total: none unless exactly that many of its chunks arrived. */
  function Recovered(payloads: seq<Bytes>, total: Byte): Option<Bytes> {
    var group := Group(ReadAll(payloads), total);
    if group != [] && |group| == total then Some(Joined(Sorted(group))) else None
  }

  // ---- Order of arrival ----

  lemma {:induction false} ReadAllSplits(a: seq<Bytes>, b: seq<Bytes>)
    ensures ReadAll(a + b) == ReadAll(a) + ReadAll(b)
  {
    hide Read;
    if a == [] {
      assert a + b == b;
    } else {
      ReadAllSplits(a[1..], b);
      assert (a + b)[1..] == a[1..] + b;
    }
  }

  lemma {:induction false} GroupSplits(a: seq<Chunk>, b: seq<Chunk>, total: Byte)
    ensures Group(a + b, total) == Group(a, total) + Group(b, total)
  {
    if a == [] {
      assert a + b == b;
    } else {
      GroupSplits(a[1..], b, total);
      assert (a + b)[1..] == a[1..] + b;
    }
  }

  /** The one burn that reads as a given chunk. */
  function Written(c: Chunk): Bytes { [c.index, c.total] + c.data }

  lemma ReadIsWritten(p: Bytes, c: Chunk)
    ensures Read(p) == Some(c) <==> p == Written(c) && c.total > 0 && c.index < c.total
  {
    if p == Written(c) {
      assert p[2..] == c.data;
    }
    if Read(p) == Some(c) {
      assert p == [p[0], p[1]] + p[2..];
    }
  }

  lemma {:induction false} ReadCounts(s: seq<Bytes>, c: Chunk)
    ensures multiset(ReadAll(s))[c] == if c.total > 0 && c.index < c.total then multiset(s)[Written(c)] else 0
  {
    hide Read, Written;
    if s != [] {
      ReadCounts(s[1..], c);
      ReadIsWritten(s[0], c);
      assert s == [s[0]] + s[1..];
    }
  }

  /** Permuted burns read as permuted chunks. */
  lemma ReadIgnoresOrder(a: seq<Bytes>, b: seq<Bytes>)
    requires multiset(a) == multiset(b)
    ensures multiset(ReadAll(a)) == multiset(ReadAll(b))
  {
    forall c ensures multiset(ReadAll(a))[c] == multiset(ReadAll(b))[c] {
      ReadCounts(a, c);
      ReadCounts(b, c);
    }
  }

  lemma {:induction false} GroupIgnoresOrder(a: seq<Chunk>, b: seq<Chunk>, total: Byte)
    requires multiset(a) == multiset(b)
    ensures multiset(Group(a, total)) == multiset(Group(b, total))
  {
    forall c ensures multiset(Group(a, total))[c] == multiset(Group(b, total))[c] {
      GroupCounts(a, total, c);
      GroupCounts(b, total, c);
    }
  }

  lemma {:induction false} GroupCounts(s: seq<Chunk>, total: Byte, c: Chunk)
    ensures multiset(Group(s, total))[c] == if c.total == total then multiset(s)[c] else 0
  {
    if s != [] {
      GroupCounts(s[1..], total, c);
      assert s == [s[0]] + s[1..];
    }
  }

  // ---- What is recovered ----

  /** The chunks of metadata whose count fits a byte. */
  function Own(meta: Bytes): (s: seq<Chunk>)
    requires Count(meta) <= 255
    ensures |s| == Count(meta)
  {
    seq(Count(meta), i requires 0 <= i < Count(meta) => Chunk(i, Count(meta), Piece(meta, i)))
  }

  lemma PayloadIsRead(meta: Bytes, i: nat)
    requires i < Count(meta)
    ensures Read(Payload(meta, i)) == (if i % 256 < Count(meta) % 256 then Some(Chunk(i % 256, Count(meta) % 256, Piece(meta, i))) else None)
  {
    assert Payload(meta, i)[2..] == Piece(meta, i);
  }

  lemma {:induction false} OwnAreRead(meta: Bytes, k: nat)
    requires k <= Count(meta) <= 255
    ensures ReadAll(Payloads(meta)[k..]) == Own(meta)[k..]
    decreases Count(meta) - k
  {
    hide Read, Payload, Piece, Count;
    if k < Count(meta) {
      OwnAreRead(meta, k + 1);
      var s := Payloads(meta)[k..];
      assert s[1..] == Payloads(meta)[k + 1..];
      PayloadIsRead(meta, k);
      assert Own(meta)[k..] == [Own(meta)[k]] + Own(meta)[k + 1..];
    }
  }

  lemma {:induction false} AllOfTotal(s: seq<Chunk>, total: Byte)
    requires forall i :: 0 <= i < |s| ==> s[i].total == total
    ensures Group(s, total) == s
  {
    if s != [] {
      AllOfTotal(s[1..], total);
      assert s == [s[0]] + s[1..];
    }
  }

  lemma {:induction false} JoinedPieces(meta: Bytes, k: nat)
    requires k <= Count(meta) <= 255
    ensures Joined(Own(meta)[k..]) == meta[Offset(meta, k)..]
    decreases Count(meta) - k
  {
    if k < Count(meta) {
      JoinedPieces(meta, k + 1);
      assert Own(meta)[k..][1..] == Own(meta)[k + 1..];
      assert meta[Offset(meta, k)..] == Piece(meta, k) + meta[Offset(meta, k + 1)..];
    } else {
      assert Offset(meta, k) == |meta|;
    }
  }

  /** Some burns of a list read as chunks of a total: so many, at least, are grouped. */
  function Readable(payloads: seq<Bytes>, total: Byte): nat { |Group(ReadAll(payloads), total)| }

  lemma ReadableSplits(a: seq<Bytes>, b: seq<Bytes>, total: Byte)
    ensures Readable(a + b, total) == Readable(a, total) + Readable(b, total)
  {
    ReadAllSplits(a, b);
    GroupSplits(ReadAll(a), ReadAll(b), total);
  }

  lemma {:induction false} AllReadable(meta: Bytes, k: nat)
    requires k <= Count(meta) % 256
    ensures Readable(Payloads(meta)[..k], Count(meta) % 256) == k
  {
    hide Read, Payload, Piece, Count;
    if k > 0 {
      var s := Payloads(meta)[..k];
      AllReadable(meta, k - 1);
      assert s == Payloads(meta)[..k - 1] + [s[k - 1]];
      ReadableSplits(Payloads(meta)[..k - 1], [s[k - 1]], Count(meta) % 256);
      ReadableOne(meta, k - 1);
    }
  }

  lemma ReadableOne(meta: Bytes, i: nat)
    requires i < Count(meta) && i % 256 < Count(meta) % 256
    ensures Readable([Payload(meta, i)], Count(meta) % 256) == 1
  {
    hide Payload, Piece, Count;
    PayloadIsRead(meta, i);
    var p := [Payload(meta, i)];
    assert p[1..] == [];
    assert ReadAll(p) == [Read(p[0]).value];
    OneGrouped(Read(p[0]).value, Count(meta) % 256);
  }

  /** Beyond what the header can count more burns carry the wrapped total than it says: burn 256 repeats index 0. */
  lemma TooManyWrap(meta: Bytes)
    requires Count(meta) > 255 && Count(meta) % 256 > 0
    ensures Readable(Payloads(meta), Count(meta) % 256) > Count(meta) % 256
  {
    hide Read, Payload, Piece, Readable;
    var p, t := Payloads(meta), Count(meta) % 256;
    AllReadable(meta, t);
    ReadableOne(meta, 256);
    assert p == p[..t] + (p[t..256] + ([p[256]] + p[257..]));
    ReadableSplits(p[..t], p[t..256] + ([p[256]] + p[257..]), t);
    ReadableSplits(p[t..256], [p[256]] + p[257..], t);
    ReadableSplits([p[256]], p[257..], t);
  }

  /** Recovery in any arrival order, beside any other burns: it succeeds exactly when the count
      fits a byte, is not zero, and no other burn reads as a chunk of the same total; and then
      it yields the metadata. */
  lemma RecoveredIff(meta: Bytes, others: seq<Bytes>, arrived: seq<Bytes>)
    requires multiset(arrived) == multiset(Payloads(meta) + others)
    ensures
      var t: Byte := Count(meta) % 256;
      && (Recovered(arrived, t).Some? <==> 1 <= Count(meta) <= 255 && Readable(others, t) == 0)
      && (Recovered(arrived, t).Some? ==> Recovered(arrived, t).value == meta)
  {
    hide Read, Payload, Piece, Group, ReadAll;
    var t: Byte := Count(meta) % 256;
    var own := Payloads(meta);
    ReadIgnoresOrder(arrived, own + others);
    GroupIgnoresOrder(ReadAll(arrived), ReadAll(own + others), t);
    SameSize(Group(ReadAll(arrived), t), Group(ReadAll(own + others), t));
    assert Readable(arrived, t) == Readable(own + others, t);
    ReadableSplits(own, others, t);
    if Count(meta) > 255 {
      if t > 0 { TooManyWrap(meta); }
    } else {
      OwnGrouped(meta);
      if Count(meta) > 0 && Readable(others, t) == 0 {
        ReadAllSplits(own, others);
        GroupSplits(ReadAll(own), ReadAll(others), t);
        SortRestores(meta, Group(ReadAll(arrived), t));
      }
    }
  }

  lemma SameSize(s: seq<Chunk>, t: seq<Chunk>)
    requires multiset(s) == multiset(t)
    ensures |s| == |t|
  {
    assert |multiset(s)| == |s| && |multiset(t)| == |t|;
  }

  lemma OwnGrouped(meta: Bytes)
    requires Count(meta) <= 255
    ensures Group(ReadAll(Payloads(meta)), Count(meta)) == Own(meta)
  {
    hide Group, ReadAll, Count, Piece;
    OwnAreRead(meta, 0);
    assert Payloads(meta)[0..] == Payloads(meta) && Own(meta)[0..] == Own(meta);
    AllOfTotal(Own(meta), Count(meta));
  }

  lemma SortRestores(meta: Bytes, group: seq<Chunk>)
    requires Count(meta) <= 255 && multiset(group) == multiset(Own(meta))
    ensures Joined(Sorted(group)) == meta
  {
    hide Count, Piece, SortBy, Joined;
    SortByFacts(IndexOf, group);
    AscendingUnique(IndexOf, Sorted(group), Own(meta));
    JoinedPieces(meta, 0);
    assert Own(meta)[0..] == Own(meta);
    assert Offset(meta, 0) == 0;
    assert meta[0..] == meta;
  }

  /** The burn every issuing transaction carries besides its chunks starts with the bytes of "pr",
      that is 112 and 114. */
  predicate IssuanceBurn(p: Bytes) { |p| == 24 && p[0] == 112 && p[1] == 114 }

  /** As far as the format goes: beside that burn 114 chunks cannot be recovered, and any other
      count up to 255 can. */
  lemma IssuedRecovery(meta: Bytes, issuance: Bytes, arrived: seq<Bytes>)
    requires IssuanceBurn(issuance) && multiset(arrived) == multiset(Payloads(meta) + [issuance])
    ensures Recovered(arrived, Count(meta) % 256) == Some(meta) <==> 1 <= Count(meta) <= 255 && Count(meta) != 114
  {
    hide Group, Recovered;
    RecoveredIff(meta, [issuance], arrived);
    assert [issuance][1..] == [];
    assert ReadAll([issuance]) == [Chunk(112, 114, issuance[2..])];
    OneGrouped(Chunk(112, 114, issuance[2..]), Count(meta) % 256);
  }

  lemma OneGrouped(c: Chunk, total: Byte)
    ensures |Group([c], total)| == if c.total == total then 1 else 0
  {
    var s := [c];
    assert s[1..] == [];
  }

  // ---- Licences ----

  /** `LicenseMetadata`. */
  datatype License = License(issuer: Id, royalty: Word, minHeight: Word, maxHeight: Word, weight: Word, poaw: Id,
                             issuanceHeight: Word, nonce: Nonce)

  type Nonce = s: Bytes | |s| == 16 witness seq(16, _ => 0)

  function Text(s: string): (b: Bytes)
    ensures |b| == |s|
  {
    seq(|s|, i requires 0 <= i < |s| => s[i] as int % 256)
  }

  function Decimal(n: nat): (b: Bytes)
    ensures b != []
  {
    if n < 10 then [48 + n] else Decimal(n / 10) + [48 + n % 10]
  }

  function List(bs: Bytes): Bytes {
    if bs == [] then []
    else if |bs| == 1 then Decimal(bs[0])
    else Decimal(bs[0]) + Text(",") + List(bs[1..])
  }

  /** The JSON that is chunked and burned. */
  function Json(l: License): Bytes {
    Text("{\"issuer\":[") + List(l.issuer)
    + Text("],\"fixed_royalty_fee\":") + Decimal(l.royalty)
    + Text(",\"min_height\":") + Decimal(l.minHeight)
    + Text(",\"max_height\":") + Decimal(l.maxHeight)
    + Text(",\"archival_weight\":") + Decimal(l.weight)
    + Text(",\"poaw_commitment\":[") + List(l.poaw)
    + Text("],\"issuance_height\":") + Decimal(l.issuanceHeight)
    + Text(",\"nonce\":[") + List(l.nonce) + Text("]}")
  }

  function Power10(d: nat): (p: nat)
    ensures p > 0
  {
    if d == 0 then 1 else 10 * Power10(d - 1)
  }

  lemma {:induction false} DecimalLength(n: nat, d: nat)
    requires d > 0 && n < Power10(d)
    ensures |Decimal(n)| <= d
  {
    if n >= 10 {
      DecimalLength(n / 10, d - 1);
    }
  }

  lemma {:induction false} ListLength(bs: Bytes)
    ensures |List(bs)| <= 4 * |bs|
    ensures bs != [] ==> |List(bs)| < 4 * |bs|
  {
    if bs != [] {
      DecimalLength(bs[0], 3);
      ListLength(bs[1..]);
    }
  }

  lemma WordLength(n: Word)
    ensures |Decimal(n)| <= 20
  {
    assert Power10(10) == 10_000_000_000;
    assert Power10(20) == 100_000_000_000_000_000_000;
    DecimalLength(n, 20);
  }

  /** A licence takes at most eight chunks. */
  lemma LicenceCount(l: License)
    ensures 1 <= Count(Json(l)) <= 8
  {
    hide List, Decimal, Text;
    ListLength(l.issuer);
    ListLength(l.poaw);
    ListLength(l.nonce);
    WordLength(l.royalty);
    WordLength(l.minHeight);
    WordLength(l.maxHeight);
    WordLength(l.weight);
    WordLength(l.issuanceHeight);
    assert 0 < |Json(l)| <= 549;
  }

  /** A licence is recovered from its issuing transaction, in any order of the burns. */
  lemma LicenceRecovered(l: License, issuance: Bytes, arrived: seq<Bytes>)
    requires IssuanceBurn(issuance) && multiset(arrived) == multiset(Payloads(Json(l)) + [issuance])
    ensures Recovered(arrived, Count(Json(l)) % 256) == Some(Json(l))
  {
    hide Json, Count, Recovered;
    LicenceCount(l);
    IssuedRecovery(Json(l), issuance, arrived);
  }

  /** In a block, beside any other burns, it is recovered exactly when none of those reads as a chunk
      of its total. */
  lemma LicenceRecoveredIff(l: License, others: seq<Bytes>, arrived: seq<Bytes>)
    requires multiset(arrived) == multiset(Payloads(Json(l)) + others)
    ensures Recovered(arrived, Count(Json(l)) % 256) == Some(Json(l)) <==> Readable(others, Count(Json(l)) % 256) == 0
  {
    hide Json, Count, Recovered, Readable;
    LicenceCount(l);
    RecoveredIff(Json(l), others, arrived);
  }

  /** So of two licences of one chunk count in a block neither is recovered. */
  lemma TwoLicences(a: License, b: License, others: seq<Bytes>, arrived: seq<Bytes>)
    requires Count(Json(a)) == Count(Json(b))
    requires multiset(arrived) == multiset(Payloads(Json(a)) + (Payloads(Json(b)) + others))
    ensures Recovered(arrived, Count(Json(a)) % 256).None?
  {
    hide Json, Count, Recovered, Readable, Payload;
    LicenceCount(a);
    LicenceCount(b);
    OwnReadable(Json(b));
    ReadableSplits(Payloads(Json(b)), others, Count(Json(b)) % 256);
    RecoveredIff(Json(a), Payloads(Json(b)) + others, arrived);
  }

  lemma OwnReadable(meta: Bytes)
    requires Count(meta) <= 255
    ensures Readable(Payloads(meta), Count(meta)) == Count(meta)
  {
    hide Group, ReadAll, Count, Piece;
    OwnGrouped(meta);
  }

  // ---- The recovery loops ----

  lemma {:induction false} ReadAllAppends(s: seq<Bytes>, i: nat)
    requires i < |s|
    ensures ReadAll(s[..i + 1]) == ReadAll(s[..i]) + (if Read(s[i]).Some? then [Read(s[i]).value] else [])
  {
    hide Read;
    assert s[..i + 1] == s[..i] + [s[i]];
    ReadAllSplits(s[..i], [s[i]]);
    var last := [s[i]];
    assert last[1..] == [];
  }

  lemma GroupAppends(s: seq<Chunk>, i: nat, total: Byte)
    requires i < |s|
    ensures Group(s[..i + 1], total) == Group(s[..i], total) + (if s[i].total == total then [s[i]] else [])
  {
    assert s[..i + 1] == s[..i] + [s[i]];
    GroupSplits(s[..i], [s[i]], total);
    var last := [s[i]];
    assert last[1..] == [];
  }

  /** `by_total`: one entry per total that occurs, holding its chunks in arrival order. */
  ghost predicate Grouped(byTotal: map<Byte, seq<Chunk>>, chunks: seq<Chunk>) {
    && (forall t: Byte :: t in byTotal <==> Group(chunks, t) != [])
    && (forall t: Byte :: t in byTotal ==> byTotal[t] == Group(chunks, t))
  }

  method CollectChunks(payloads: seq<Bytes>) returns (chunks: seq<Chunk>)
    ensures chunks == ReadAll(payloads)
  {
    hide ReadAll;
    chunks := [];
    assert ReadAll(payloads[..0]) == [] by { ReadNone(payloads); }
    for i := 0 to |payloads|
      invariant chunks == ReadAll(payloads[..i])
    {
      ReadAllAppends(payloads, i);
      var p := payloads[i];
      if |p| >= 2 {
        var index, total := p[0], p[1];
        if total > 0 && index < total {
          chunks := chunks + [Chunk(index, total, p[2..])];
        }
      }
    }
    assert payloads[..|payloads|] == payloads;
  }

  lemma ReadNone(payloads: seq<Bytes>)
    ensures ReadAll(payloads[..0]) == []
  {
  }

  method GroupByTotal(chunks: seq<Chunk>) returns (byTotal: map<Byte, seq<Chunk>>)
    ensures Grouped(byTotal, chunks)
  {
    byTotal := map[];
    for i := 0 to |chunks|
      invariant Grouped(byTotal, chunks[..i])
    {
      var c := chunks[i];
      var sofar := if c.total in byTotal then byTotal[c.total] else [];
      GroupStep(byTotal, chunks, i);
      byTotal := byTotal[c.total := sofar + [c]];
    }
    assert chunks[..|chunks|] == chunks;
  }

  lemma GroupStep(byTotal: map<Byte, seq<Chunk>>, chunks: seq<Chunk>, i: nat)
    requires i < |chunks| && Grouped(byTotal, chunks[..i])
    ensures
      var c := chunks[i];
      Grouped(byTotal[c.total := (if c.total in byTotal then byTotal[c.total] else []) + [c]], chunks[..i + 1])
  {
    hide Group;
    forall t: Byte ensures Group(chunks[..i + 1], t) == Group(chunks[..i], t) + (if chunks[i].total == t then [chunks[i]] else []) {
      GroupAppends(chunks, i, t);
    }
  }

  /** The reassembly in `wallet_recover_license_metadata`, up to decoding the bytes. The groups
      come out of a hash map, in any order. */
  method Recover(payloads: seq<Bytes>) returns (full: map<Byte, Bytes>)
    ensures forall t: Byte :: t in full <==> Recovered(payloads, t).Some?
    ensures forall t: Byte :: t in full ==> Recovered(payloads, t) == Some(full[t])
  {
    hide Group, ReadAll, Sorted, Joined;
    var chunks := CollectChunks(payloads);
    var byTotal := GroupByTotal(chunks);
    full := map[];
    var left := byTotal.Keys;
    while left != {}
      invariant left <= byTotal.Keys && full.Keys !! left
      invariant forall t: Byte :: t in full ==> t in byTotal && Recovered(payloads, t) == Some(full[t])
      invariant forall t: Byte :: t in byTotal && t !in left && Recovered(payloads, t).Some? ==> t in full
      decreases |left|
    {
      var total :| total in left;
      left := left - {total};
      var group := byTotal[total];
      if |group| == total {
        full := full[total := Joined(Sorted(group))];
      }
    }
  }
}
