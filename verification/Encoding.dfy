/** The byte strings that get hashed or signed, and one parser that reads every one of them back. */
module Encoding {
  import opened Types
  import opened TextOrder

  type Byte = b: int | 0 <= b < 256

  type Bytes = seq<Byte>

  // ---------------------------------------------------------------- integers

  function Pow256(k: nat): (r: nat)
    ensures r >= 1
  {
    if k == 0 then 1 else 256 * Pow256(k - 1)
  }

  function BigEndian(n: nat, k: nat): (r: Bytes)
    ensures |r| == k
  {
    if k == 0 then [] else BigEndian(n / 256, k - 1) + [n % 256]
  }

  function Number(bytes: Bytes): nat {
    if bytes == [] then 0 else Number(bytes[..|bytes| - 1]) * 256 + bytes[|bytes| - 1]
  }

  lemma {:induction false} NumberReads(n: nat, k: nat)
    requires n < Pow256(k)
    ensures Number(BigEndian(n, k)) == n
  {
    if k > 0 {
      NumberReads(n / 256, k - 1);
      assert BigEndian(n, k)[..k - 1] == BigEndian(n / 256, k - 1);
    }
  }

  predicate Encodable(n: int) { 0 <= n <= INT_MAX }

  function U64(n: int): (r: Bytes)
    requires Encodable(n)
    ensures |r| == 8
  {
    BigEndian(n, 8)
  }

  lemma {:induction false} DigitAt(n: nat, k: nat, i: nat)
    requires i < k
    ensures BigEndian(n, k)[i] == (n / Pow256(k - 1 - i)) % 256
  {
    if i < k - 1 {
      DigitAt(n / 256, k - 1, i);
      DivTwice(n, Pow256(k - 2 - i));
    }
  }

  lemma DivTwice(n: nat, d: nat)
    requires d >= 1
    ensures (n / 256) / d == n / (256 * d)
  {
    var q := (n / 256) / d;
    var r, s := n % 256, (n / 256) % d;
    assert n == 256 * (q * d + s) + r;
    assert n == q * (256 * d) + (256 * s + r);
    assert 256 * s + r < 256 * d;
    QuotientIs(n, 256 * d, q, 256 * s + r);
  }

  lemma QuotientIs(n: nat, d: nat, q: nat, r: nat)
    requires d >= 1 && n == q * d + r && r < d
    ensures n / d == q
  {
    var e := n / d;
    assert (e - q) * d == r - n % d;
    if q < e {
      TimesMonotone(1, e - q, d);
    } else if e < q {
      TimesMonotone(1, q - e, d);
    }
  }

  lemma TimesMonotone(a: nat, b: nat, c: nat)
    requires a <= b
    ensures a * c <= b * c
  {}

  /** Eight bytes, the most significant first, read back as the number. */
  lemma U64Reads(n: int)
    requires Encodable(n)
    ensures Number(U64(n)) == n && |U64(n)| == 8
    ensures forall i :: 0 <= i < 8 ==> U64(n)[i] == (n / Pow256(7 - i)) % 256
  {
    forall i | 0 <= i < 8
      ensures U64(n)[i] == (n / Pow256(7 - i)) % 256
    {
      DigitAt(n, 8, i);
    }
    assert Pow256(4) == 0x1_0000_0000;
    assert Pow256(8) == 0x1_0000_0000 * Pow256(4);
    NumberReads(n, 8);
  }

  // ---------------------------------------------------------------- text

  predicate Ascii(text: string) { |text| <= 255 && forall i :: 0 <= i < |text| ==> text[i] as int < 128 }

  function AsciiBytes(text: string): (r: Bytes)
    requires Ascii(text)
    ensures |r| == |text|
  {
    seq(|text|, i requires 0 <= i < |text| => text[i] as int)
  }

  /** One length byte, then the characters. */
  function Text(text: string): Bytes
    requires Ascii(text)
  {
    [|text|] + AsciiBytes(text)
  }

  // ---------------------------------------------------------------- what is hashed or signed

  /** The fields a signature covers. Keys and signatures are raw bytes: their base64 text is canonical. */
  datatype Signed = Signed(
    network: string, sender: string, recipient: string,
    amount: int, fee: int, nonce: int, timestamp: int, key: Bytes)

  datatype Message =
    | SigningPayload(body: Signed)
    | TxPreimage(body: Signed, signature: Bytes)
    | CoinbasePreimage(network: string, height: int, recipient: string, subsidy: int, fees: int)
    | Header(network: string, height: int, previous: Bytes, merkle: Bytes, timestamp: int, difficulty: int, nonce: int)
    | AllocationPreimage(entries: seq<(string, int)>)
    | LeafPreimage(txid: Bytes)
    | NodePreimage(left: Bytes, right: Bytes)

  predicate BodyOk(s: Signed) {
    && Ascii(s.network) && Ascii(s.sender) && Ascii(s.recipient)
    && Encodable(s.amount) && Encodable(s.fee) && Encodable(s.nonce) && Encodable(s.timestamp) && |s.key| == 32
  }

  /** Exactly the messages the encoders accept; anything else makes them raise. */
  predicate MessageOk(m: Message) {
    match m
    case SigningPayload(body) => BodyOk(body)
    case TxPreimage(body, signature) => BodyOk(body) && |signature| == 64
    case CoinbasePreimage(network, height, recipient, subsidy, fees) =>
      Ascii(network) && Encodable(height) && Ascii(recipient) && Encodable(subsidy) && Encodable(fees)
    case Header(network, height, previous, merkle, timestamp, difficulty, nonce) =>
      && Ascii(network) && Encodable(height) && |previous| == 32 && |merkle| == 32
      && Encodable(timestamp) && Encodable(difficulty) && Encodable(nonce)
    case AllocationPreimage(entries) => forall i :: 0 <= i < |entries| ==> Ascii(entries[i].0) && Encodable(entries[i].1)
    case LeafPreimage(txid) => |txid| == 32
    case NodePreimage(left, right) => |left| == 32 && |right| == 32
  }

  const TX_DOMAIN: string := "MineAI/tx/v1\0"
  const COINBASE_DOMAIN: string := "MineAI/coinbase/v1\0"
  const BLOCK_DOMAIN: string := "MineAI/block/v1\0"
  const ALLOCATION_DOMAIN: string := "MineAI/genesis-allocations/v1\0"

  lemma DomainsAscii()
    ensures Ascii(TX_DOMAIN) && Ascii(COINBASE_DOMAIN) && Ascii(BLOCK_DOMAIN) && Ascii(ALLOCATION_DOMAIN)
    ensures |TX_DOMAIN| == 13 && |COINBASE_DOMAIN| == 19 && |BLOCK_DOMAIN| == 16 && |ALLOCATION_DOMAIN| == 30
    ensures forall d :: d in {TX_DOMAIN, COINBASE_DOMAIN, BLOCK_DOMAIN, ALLOCATION_DOMAIN} ==> |d| > 7 && d[0] == 'M'
    ensures TX_DOMAIN[7] == 't' && COINBASE_DOMAIN[7] == 'c' && BLOCK_DOMAIN[7] == 'b' && ALLOCATION_DOMAIN[7] == 'g'
  {}

  function Tag(domain: string): Bytes
    requires domain in {TX_DOMAIN, COINBASE_DOMAIN, BLOCK_DOMAIN, ALLOCATION_DOMAIN}
  {
    DomainsAscii();
    AsciiBytes(domain)
  }

  function EncodeBody(s: Signed, tail: Bytes): Bytes
    requires BodyOk(s)
  {
    Text(s.network) + (Text(s.sender) + (Text(s.recipient)
    + (U64(s.amount) + (U64(s.fee) + (U64(s.nonce) + (U64(s.timestamp) + (s.key + tail)))))))
  }

  function EncodeEntries(entries: seq<(string, int)>): Bytes
    requires forall i :: 0 <= i < |entries| ==> Ascii(entries[i].0) && Encodable(entries[i].1)
  {
    if entries == [] then []
    else Text(entries[0].0) + (U64(entries[0].1) + EncodeEntries(entries[1..]))
  }

  function Encode(m: Message): Bytes
    requires MessageOk(m)
  {
    match m
    case SigningPayload(body) => Tag(TX_DOMAIN) + EncodeBody(body, [])
    case TxPreimage(body, signature) => Tag(TX_DOMAIN) + EncodeBody(body, signature)
    case CoinbasePreimage(network, height, recipient, subsidy, fees) =>
      Tag(COINBASE_DOMAIN) + (Text(network) + (U64(height) + (Text(recipient) + (U64(subsidy) + U64(fees)))))
    case Header(network, height, previous, merkle, timestamp, difficulty, nonce) =>
      Tag(BLOCK_DOMAIN) + (Text(network) + (U64(height) + (previous + (merkle
      + (U64(timestamp) + (U64(difficulty) + U64(nonce)))))))
    case AllocationPreimage(entries) => Tag(ALLOCATION_DOMAIN) + EncodeEntries(entries)
    case LeafPreimage(txid) => [0] + txid
    case NodePreimage(left, right) => [1] + (left + right)
  }

  // ---------------------------------------------------------------- reading back

  /** A value and what follows it; `ok` is false when the bytes do not start with such a value. */
  datatype Read<T> = Read(ok: bool, value: T, rest: Bytes)

  function ReadBytes(bytes: Bytes, k: nat): Read<Bytes> {
    if |bytes| < k then Read(false, [], []) else Read(true, bytes[..k], bytes[k..])
  }

  function ReadU64(bytes: Bytes): Read<int> {
    if |bytes| < 8 then Read(false, 0, []) else Read(true, Number(bytes[..8]), bytes[8..])
  }

  function Chars(bytes: Bytes): (r: string)
    ensures |r| == |bytes|
  {
    seq(|bytes|, i requires 0 <= i < |bytes| => bytes[i] as char)
  }

  function ReadText(bytes: Bytes): Read<string> {
    if bytes == [] then Read(false, "", [])
    else
      var end: int := bytes[0] as int + 1;
      if |bytes| < end then Read(false, "", []) else Read(true, Chars(bytes[1..end]), bytes[end..])
  }

  lemma ReadsBytes(value: Bytes, rest: Bytes)
    ensures ReadBytes(value + rest, |value|) == Read(true, value, rest)
  {}

  lemma ReadsU64(n: int, rest: Bytes)
    requires Encodable(n)
    ensures ReadU64(U64(n) + rest) == Read(true, n, rest)
  {
    U64Reads(n);
    assert (U64(n) + rest)[..8] == U64(n);
  }

  lemma ReadsText(text: string, rest: Bytes)
    requires Ascii(text)
    ensures ReadText(Text(text) + rest) == Read(true, text, rest)
  {
    var bytes := Text(text) + rest;
    assert bytes[0] == |text|;
    assert bytes[1..1 + |text|] == AsciiBytes(text);
    assert Chars(AsciiBytes(text)) == text;
    assert bytes[1 + |text|..] == rest;
  }

  function ReadBody(bytes: Bytes): Read<Signed> {
    var network := ReadText(bytes);
    var sender := ReadText(network.rest);
    var recipient := ReadText(sender.rest);
    var amount := ReadU64(recipient.rest);
    var fee := ReadU64(amount.rest);
    var nonce := ReadU64(fee.rest);
    var timestamp := ReadU64(nonce.rest);
    var key := ReadBytes(timestamp.rest, 32);
    Read(key.ok,
         Signed(network.value, sender.value, recipient.value, amount.value, fee.value, nonce.value, timestamp.value, key.value),
         key.rest)
  }

  lemma ReadsBody(s: Signed, tail: Bytes)
    requires BodyOk(s)
    ensures ReadBody(EncodeBody(s, tail)) == Read(true, s, tail)
  {
    hide ReadText, ReadU64, ReadBytes, Text, U64;
    var key := s.key + tail;
    var timestamp := U64(s.timestamp) + key;
    var nonce := U64(s.nonce) + timestamp;
    var fee := U64(s.fee) + nonce;
    var amount := U64(s.amount) + fee;
    var recipient := Text(s.recipient) + amount;
    var sender := Text(s.sender) + recipient;
    ReadsText(s.network, sender);
    ReadsText(s.sender, recipient);
    ReadsText(s.recipient, amount);
    ReadsU64(s.amount, fee);
    ReadsU64(s.fee, nonce);
    ReadsU64(s.nonce, timestamp);
    ReadsU64(s.timestamp, key);
    ReadsBytes(s.key, tail);
  }

  function ReadEntries(bytes: Bytes): seq<(string, int)>
    decreases |bytes|
  {
    var address := ReadText(bytes);
    if !address.ok then []
    else
      var amount := ReadU64(address.rest);
      if !amount.ok then [] else [(address.value, amount.value)] + ReadEntries(amount.rest)
  }

  lemma {:induction false} ReadsEntries(entries: seq<(string, int)>)
    requires forall i :: 0 <= i < |entries| ==> Ascii(entries[i].0) && Encodable(entries[i].1)
    ensures ReadEntries(EncodeEntries(entries)) == entries
  {
    hide ReadEntries, Text, U64;
    assert entries == [] ==> ReadEntries([]) == [] by { ReadNothing(); }
    if entries != [] {
      var rest := EncodeEntries(entries[1..]);
      ReadsEntries(entries[1..]);
      ReadEntry(entries[0], rest);
      assert entries == [entries[0]] + entries[1..];
    }
  }

  lemma ReadNothing()
    ensures ReadEntries([]) == []
  {}

  lemma ReadEntry(entry: (string, int), rest: Bytes)
    requires Ascii(entry.0) && Encodable(entry.1)
    ensures ReadEntries(Text(entry.0) + (U64(entry.1) + rest)) == [entry] + ReadEntries(rest)
  {
    hide ReadText, ReadU64, Text, U64;
    ReadsText(entry.0, U64(entry.1) + rest);
    ReadsU64(entry.1, rest);
  }

  /** One parser for every family: the first byte tells Merkle preimages from tagged ones, the eighth byte
      tells the tags apart. */
  function Parse(bytes: Bytes): Option<Message> {
    if bytes == [] then None
    else if bytes[0] == 0 then Some(LeafPreimage(bytes[1..]))
    else if bytes[0] == 1 then
      var left := ReadBytes(bytes[1..], 32);
      Some(NodePreimage(left.value, left.rest))
    else if |bytes| < 8 then None
    else if bytes[7] == 't' as int && |bytes| >= 13 then
      var body := ReadBody(bytes[13..]);
      if body.rest == [] then Some(SigningPayload(body.value)) else Some(TxPreimage(body.value, body.rest))
    else if bytes[7] == 'c' as int && |bytes| >= 19 then
      var network := ReadText(bytes[19..]);
      var height := ReadU64(network.rest);
      var recipient := ReadText(height.rest);
      var subsidy := ReadU64(recipient.rest);
      var fees := ReadU64(subsidy.rest);
      Some(CoinbasePreimage(network.value, height.value, recipient.value, subsidy.value, fees.value))
    else if bytes[7] == 'b' as int && |bytes| >= 16 then
      var network := ReadText(bytes[16..]);
      var height := ReadU64(network.rest);
      var previous := ReadBytes(height.rest, 32);
      var merkle := ReadBytes(previous.rest, 32);
      var timestamp := ReadU64(merkle.rest);
      var difficulty := ReadU64(timestamp.rest);
      var nonce := ReadU64(difficulty.rest);
      Some(Header(network.value, height.value, previous.value, merkle.value, timestamp.value, difficulty.value, nonce.value))
    else if |bytes| >= 30 then Some(AllocationPreimage(ReadEntries(bytes[30..])))
    else None
  }

  lemma TagReads(domain: string, rest: Bytes)
    requires domain in {TX_DOMAIN, COINBASE_DOMAIN, BLOCK_DOMAIN, ALLOCATION_DOMAIN}
    ensures
      var bytes := Tag(domain) + rest;
      && |bytes| > 7 && |bytes| >= |domain| && bytes[0] == 'M' as int && bytes[7] == domain[7] as int
      && bytes[|domain|..] == rest
  {
    DomainsAscii();
  }

  lemma ParsesCoinbase(m: Message)
    requires MessageOk(m) && m.CoinbasePreimage?
    ensures Parse(Encode(m)) == Some(m)
  {
    DomainsAscii();
    hide ReadText, ReadU64, ReadBytes, Text, U64, Tag;
    var fees := U64(m.fees) + [];
    assert fees == U64(m.fees);
    var subsidy := U64(m.subsidy) + fees;
    var recipient := Text(m.recipient) + subsidy;
    var height := U64(m.height) + recipient;
    TagReads(COINBASE_DOMAIN, Text(m.network) + height);
    ReadsText(m.network, height);
    ReadsU64(m.height, recipient);
    ReadsText(m.recipient, subsidy);
    ReadsU64(m.subsidy, fees);
    ReadsU64(m.fees, []);
  }

  lemma ParsesHeader(m: Message)
    requires MessageOk(m) && m.Header?
    ensures Parse(Encode(m)) == Some(m)
  {
    DomainsAscii();
    hide ReadText, ReadU64, ReadBytes, Text, U64, Tag;
    var nonce := U64(m.nonce) + [];
    assert nonce == U64(m.nonce);
    var difficulty := U64(m.difficulty) + nonce;
    var timestamp := U64(m.timestamp) + difficulty;
    var merkle := m.merkle + timestamp;
    var previous := m.previous + merkle;
    var height := U64(m.height) + previous;
    TagReads(BLOCK_DOMAIN, Text(m.network) + height);
    ReadsText(m.network, height);
    ReadsU64(m.height, previous);
    ReadsBytes(m.previous, merkle);
    ReadsBytes(m.merkle, timestamp);
    ReadsU64(m.timestamp, difficulty);
    ReadsU64(m.difficulty, nonce);
    ReadsU64(m.nonce, []);
  }

  lemma ParsesTagged(m: Message)
    requires MessageOk(m) && (m.SigningPayload? || m.TxPreimage? || m.AllocationPreimage?)
    ensures Parse(Encode(m)) == Some(m)
  {
    DomainsAscii();
    hide ReadBody, EncodeBody, ReadEntries, EncodeEntries, Tag;
    match m
    case SigningPayload(body) =>
      TagReads(TX_DOMAIN, EncodeBody(body, []));
      ReadsBody(body, []);
    case TxPreimage(body, signature) =>
      TagReads(TX_DOMAIN, EncodeBody(body, signature));
      ReadsBody(body, signature);
    case AllocationPreimage(entries) =>
      TagReads(ALLOCATION_DOMAIN, EncodeEntries(entries));
      ReadsEntries(entries);
  }

  /** Every encoding is read back by the one parser. */
  lemma ParseInvertsEncode(m: Message)
    requires MessageOk(m)
    ensures Parse(Encode(m)) == Some(m)
  {
    match m
    case CoinbasePreimage(_, _, _, _, _) => ParsesCoinbase(m);
    case Header(_, _, _, _, _, _, _) => ParsesHeader(m);
    case LeafPreimage(txid) =>
      assert Encode(m)[1..] == txid;
    case NodePreimage(left, right) =>
      assert Encode(m)[1..] == left + right;
      ReadsBytes(left, right);
    case _ => ParsesTagged(m);
  }

  /** No two different objects, of one family or of two, of one network or of two, share a hash input. */
  lemma EncodingsDistinct(m: Message, n: Message)
    requires MessageOk(m) && MessageOk(n) && Encode(m) == Encode(n)
    ensures m == n
  {
    ParseInvertsEncode(m);
    ParseInvertsEncode(n);
  }

  // ---------------------------------------------------------------- genesis allocations

  predicate EntriesOk(entries: seq<(string, int)>) {
    forall i :: 0 <= i < |entries| ==> Ascii(entries[i].0) && Encodable(entries[i].1)
  }

  lemma SortKeepsOk(entries: seq<(string, int)>)
    requires EntriesOk(entries)
    ensures EntriesOk(SortEntries(entries))
  {
    var r := SortEntries(entries);
    SortCounts(entries);
    forall i | 0 <= i < |r|
      ensures Ascii(r[i].0) && Encodable(r[i].1)
    {
      assert r[i] in multiset(r);
      assert r[i] in entries;
    }
  }

  /** The preimage of the allocation commitment: the entries in sorted order. */
  function AllocationBytes(entries: seq<(string, int)>): Bytes
    requires EntriesOk(entries)
  {
    SortKeepsOk(entries);
    Encode(AllocationPreimage(SortEntries(entries)))
  }

  /** Two profiles commit to the same bytes exactly when they allocate the same amounts to the same
      addresses, in whatever order they list them. */
  lemma AllocationCommitment(a: seq<(string, int)>, b: seq<(string, int)>)
    requires EntriesOk(a) && EntriesOk(b)
    ensures AllocationBytes(a) == AllocationBytes(b) <==> multiset(a) == multiset(b)
  {
    hide Encode, SortEntries, EntriesOk;
    AllocationIs(a);
    AllocationIs(b);
    SortSorts(a);
    SortSorts(b);
    SortCounts(a);
    SortCounts(b);
    if AllocationBytes(a) == AllocationBytes(b) {
      EncodingsDistinct(AllocationPreimage(SortEntries(a)), AllocationPreimage(SortEntries(b)));
    }
    if multiset(a) == multiset(b) {
      SortedUnique(SortEntries(a), SortEntries(b));
    }
  }

  lemma AllocationIs(a: seq<(string, int)>)
    requires EntriesOk(a)
    ensures MessageOk(AllocationPreimage(SortEntries(a)))
    ensures AllocationBytes(a) == Encode(AllocationPreimage(SortEntries(a)))
  {
    hide Encode;
    SortKeepsOk(a);
  }
}
