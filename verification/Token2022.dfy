/** Decoding of a Token-2022 mint account: a fixed base, then type-length-value extensions up to a zero type. */
module Token2022 {
  import opened Prelude
  import opened Base58

  const BASE_MINT_LEN := 82
  const ACCOUNT_TYPE_OFFSET := 165
  const TLV_START := 166

  datatype Extension = Extension(id: nat, data: seq<byte>)

  datatype Mint = Mint(
    mintAuthority: Option<string>, freezeAuthority: Option<string>, supply: nat, decimals: nat,
    extensions: seq<Extension>)

  datatype Error =
    | AccountTooShort | InvalidMintAuthority | NotInitialized | InvalidFreezeAuthority | InvalidExtensionRegion
    | AccountTypeNotMint | TruncatedHeader | TruncatedValue | DuplicateExtension

  datatype Parsed<T> = Ok(value: T) | Failed(error: Error)

  /** Little-endian value of bytes. */
  function Little(bytes: seq<byte>): nat {
    if bytes == [] then 0 else bytes[0] as nat + 256 * Little(bytes[1..])
  }

  datatype COption = Absent | Present(address: string) | Invalid

  function COptionAt(data: seq<byte>, offset: nat): COption
    requires offset + 36 <= |data|
  {
    var tag := Little(data[offset..offset + 4]);
    if tag == 0 then Absent
    else if tag != 1 then Invalid
    else Present(Text(data[offset + 4..offset + 36]))
  }

  function Address(o: COption): Option<string> {
    if o.Present? then Some(o.address) else None
  }

  /** A parse with extensions put in front. */
  function Prefixed(extensions: seq<Extension>, read: Parsed<seq<Extension>>): Parsed<seq<Extension>> {
    match read
    case Failed(error) => Failed(error)
    case Ok(more) => Ok(extensions + more)
  }

  lemma PrefixedTwice(first: seq<Extension>, second: seq<Extension>, read: Parsed<seq<Extension>>)
    ensures Prefixed(first, Prefixed(second, read)) == Prefixed(first + second, read)
    ensures Prefixed([], read) == read
  {
    if read.Ok? {
      assert first + (second + read.value) == first + second + read.value;
      assert [] + read.value == read.value;
    }
  }

  /** The extensions of a region, given the ids already met. */
  function Extensions(region: seq<byte>, seen: set<nat>): Parsed<seq<Extension>>
    decreases |region|
  {
    if region == [] then Ok([])
    else if |region| < 4 then Failed(TruncatedHeader)
    else
      var id, len := Little(region[..2]), Little(region[2..4]);
      if id == 0 then Ok([])
      else if 4 + len > |region| then Failed(TruncatedValue)
      else if id in seen then Failed(DuplicateExtension)
      else
        Prefixed([Extension(id, region[4..4 + len])], Extensions(region[4 + len..], seen + {id}))
  }

  function ExtensionRegion(data: seq<byte>): Parsed<seq<Extension>> {
    if |data| <= BASE_MINT_LEN then Ok([])
    else if |data| < TLV_START then Failed(InvalidExtensionRegion)
    else if data[ACCOUNT_TYPE_OFFSET] != 1 then Failed(AccountTypeNotMint)
    else Extensions(data[TLV_START..], {})
  }

  function Parse(data: seq<byte>): Parsed<Mint> {
    if |data| < BASE_MINT_LEN then Failed(AccountTooShort)
    else if COptionAt(data, 0).Invalid? then Failed(InvalidMintAuthority)
    else if data[45] != 1 then Failed(NotInitialized)
    else if COptionAt(data, 46).Invalid? then Failed(InvalidFreezeAuthority)
    else
      match ExtensionRegion(data)
      case Failed(error) => Failed(error)
      case Ok(extensions) =>
        Ok(Mint(Address(COptionAt(data, 0)), Address(COptionAt(data, 46)), Little(data[36..44]), data[44], extensions))
  }

  method ReadCOption(data: seq<byte>, offset: nat) returns (o: COption)
    requires offset + 36 <= |data|
    ensures o == COptionAt(data, offset)
  {
    var tag := Little(data[offset..offset + 4]);
    if tag == 0 {
      return Absent;
    }
    if tag != 1 {
      return Invalid;
    }
    var text := ToBase58(data[offset + 4..offset + 36]);
    o := Present(text);
  }

  /** The loop over the extension region; `o` is the offset of the next entry. */
  method ReadExtensions(data: seq<byte>) returns (r: Parsed<seq<Extension>>)
    requires |data| >= TLV_START
    ensures r == Extensions(data[TLV_START..], {})
  {
    var extensions: seq<Extension> := [];
    var seen: set<nat> := {};
    var o := TLV_START;
    ghost var all := Extensions(data[TLV_START..], {});
    PrefixedTwice([], [], all);
    while o < |data|
      invariant TLV_START <= o <= |data|
      invariant all == Prefixed(extensions, Extensions(data[o..], seen))
      decreases |data| - o
    {
      var region := data[o..];
      if o + 4 > |data| {
        return Failed(TruncatedHeader);
      }
      assert region[..2] == data[o..o + 2] && region[2..4] == data[o + 2..o + 4];
      var id, len := Little(data[o..o + 2]), Little(data[o + 2..o + 4]);
      if id == 0 {
        break;
      }
      if o + 4 + len > |data| {
        return Failed(TruncatedValue);
      }
      if id in seen {
        return Failed(DuplicateExtension);
      }
      var value := data[o + 4..o + 4 + len];
      assert region[4..4 + len] == value && region[4 + len..] == data[o + 4 + len..];
      PrefixedTwice(extensions, [Extension(id, value)], Extensions(data[o + 4 + len..], seen + {id}));
      seen := seen + {id};
      extensions := extensions + [Extension(id, value)];
      o := o + 4 + len;
    }
    assert Extensions(data[o..], seen) == Ok([]);
    assert extensions + [] == extensions;
    r := Ok(extensions);
  }

  method ParseToken2022Mint(data: seq<byte>) returns (r: Parsed<Mint>)
    ensures r == Parse(data)
  {
    if |data| < BASE_MINT_LEN {
      return Failed(AccountTooShort);
    }
    var mintAuthority := ReadCOption(data, 0);
    if mintAuthority.Invalid? {
      return Failed(InvalidMintAuthority);
    }
    var supply, decimals := Little(data[36..44]), data[44];
    if data[45] != 1 {
      return Failed(NotInitialized);
    }
    var freezeAuthority := ReadCOption(data, 46);
    if freezeAuthority.Invalid? {
      return Failed(InvalidFreezeAuthority);
    }
    var extensions: seq<Extension> := [];
    if |data| > BASE_MINT_LEN {
      if |data| < TLV_START {
        return Failed(InvalidExtensionRegion);
      }
      if data[ACCOUNT_TYPE_OFFSET] != 1 {
        return Failed(AccountTypeNotMint);
      }
      var read := ReadExtensions(data);
      if read.Failed? {
        return Failed(read.error);
      }
      extensions := read.value;
    }
    r := Ok(Mint(Address(mintAuthority), Address(freezeAuthority), supply, decimals, extensions));
  }

  // ---- writing -----------------------------------------------------------------------------------------------------------

  /** The low n bytes of a value, least significant first. */
  function Bytes(value: nat, n: nat): (b: seq<byte>)
    ensures |b| == n
  {
    if n == 0 then [] else [value % 256] + Bytes(value / 256, n - 1)
  }

  lemma {:induction false} LittleBytes(value: nat, n: nat)
    requires value < Pow256(n)
    ensures Little(Bytes(value, n)) == value
    decreases n
  {
    if n > 0 {
      LittleBytes(value / 256, n - 1);
      assert Bytes(value, n)[1..] == Bytes(value / 256, n - 1);
    }
  }

  function Pow256(n: nat): nat {
    if n == 0 then 1 else 256 * Pow256(n - 1)
  }

  function WrittenEntry(e: Extension): seq<byte> {
    Bytes(e.id, 2) + Bytes(|e.data|, 2) + e.data
  }

  function Written(extensions: seq<Extension>): seq<byte> {
    if extensions == [] then [] else WrittenEntry(extensions[0]) + Written(extensions[1..])
  }

  ghost predicate Writable(extensions: seq<Extension>) {
    && (forall i | 0 <= i < |extensions| :: 0 < extensions[i].id < 65536 && |extensions[i].data| < 65536)
    && forall i, j | 0 <= i < j < |extensions| :: extensions[i].id != extensions[j].id
  }

  /** No extension has an id already met. */
  ghost predicate Unseen(extensions: seq<Extension>, seen: set<nat>) {
    forall i | 0 <= i < |extensions| :: extensions[i].id !in seen
  }

  /** What may follow the last entry: nothing, or a header of type zero and anything after it. */
  predicate Ending(tail: seq<byte>) {
    tail == [] || (|tail| >= 4 && tail[0] == 0 && tail[1] == 0)
  }

  lemma LittleOfTwo(bytes: seq<byte>)
    requires |bytes| == 2
    ensures Little(bytes) == bytes[0] as nat + 256 * bytes[1] as nat
    ensures Bytes(Little(bytes), 2) == bytes && Little(bytes) < 65536
  {
    assert Little(bytes[1..]) == bytes[1] as nat + 256 * Little(bytes[1..][1..]);
    assert bytes[1..][1..] == [];
    var v := Little(bytes);
    assert v % 256 == bytes[0] && v / 256 == bytes[1] as nat;
    assert Bytes(v, 2) == [v % 256] + Bytes(v / 256, 1);
    assert Bytes(v / 256, 1) == [(v / 256) % 256] + Bytes(v / 256 / 256, 0);
  }

  lemma LittleBytesTwo(value: nat)
    requires value < 65536
    ensures Little(Bytes(value, 2)) == value
  {
    assert Pow256(2) == 65536;
    LittleBytes(value, 2);
  }

  /** Reading one written entry and what follows it. */
  lemma ReadsOneEntry(e: Extension, rest: seq<byte>, seen: set<nat>)
    requires 0 < e.id < 65536 && |e.data| < 65536 && e.id !in seen
    ensures Extensions(WrittenEntry(e) + rest, seen) == Prefixed([e], Extensions(rest, seen + {e.id}))
  {
    var region := WrittenEntry(e) + rest;
    assert region[..2] == Bytes(e.id, 2) && region[2..4] == Bytes(|e.data|, 2);
    LittleBytesTwo(e.id);
    LittleBytesTwo(|e.data|);
    assert region[4..4 + |e.data|] == e.data && region[4 + |e.data|..] == rest;
  }

  lemma EndingEnds(tail: seq<byte>, seen: set<nat>)
    requires Ending(tail)
    ensures Extensions(tail, seen) == Ok([])
  {
    if tail != [] {
      LittleOfTwo(tail[..2]);
    }
  }

  lemma WrittenSplits(extensions: seq<Extension>, tail: seq<byte>)
    requires extensions != []
    ensures Written(extensions) + tail == WrittenEntry(extensions[0]) + (Written(extensions[1..]) + tail)
  {}

  lemma OthersWritable(extensions: seq<Extension>, seen: set<nat>)
    requires extensions != [] && Writable(extensions) && Unseen(extensions, seen)
    ensures Writable(extensions[1..]) && Unseen(extensions[1..], seen + {extensions[0].id})
  {
    var others := extensions[1..];
    assert forall i | 0 <= i < |others| :: others[i] == extensions[i + 1];
  }

  /** Reading a written list comes down to reading what follows it. */
  lemma {:induction false} ReadsWritten(extensions: seq<Extension>, tail: seq<byte>, seen: set<nat>)
    returns (after: set<nat>)
    requires Writable(extensions) && Unseen(extensions, seen)
    ensures Extensions(Written(extensions) + tail, seen) == Prefixed(extensions, Extensions(tail, after))
    decreases |extensions|
  {
    if extensions == [] {
      after := seen;
      assert Written(extensions) + tail == tail;
      PrefixedTwice([], [], Extensions(tail, seen));
    } else {
      var e, others := extensions[0], extensions[1..];
      OthersWritable(extensions, seen);
      after := ReadsWritten(others, tail, seen + {e.id});
      WrittenSplits(extensions, tail);
      ReadsOneEntry(e, Written(others) + tail, seen);
      PrefixedTwice([e], others, Extensions(tail, after));
      assert [e] + others == extensions;
    }
  }

  /** Parsing inverts writing, whatever ids were met before and whatever padding follows. */
  lemma ParsingInvertsWriting(extensions: seq<Extension>, tail: seq<byte>, seen: set<nat>)
    requires Writable(extensions) && Ending(tail)
    requires Unseen(extensions, seen)
    ensures Extensions(Written(extensions) + tail, seen) == Ok(extensions)
  {
    var after := ReadsWritten(extensions, tail, seen);
    EndingEnds(tail, after);
    assert extensions + [] == extensions;
  }

  /** One to three bytes after the last entry are a truncated header, zero or not. */
  lemma ShortPaddingIsRefused(extensions: seq<Extension>, tail: seq<byte>, seen: set<nat>)
    requires Writable(extensions) && 1 <= |tail| <= 3
    requires Unseen(extensions, seen)
    ensures Extensions(Written(extensions) + tail, seen) == Failed(TruncatedHeader)
  {
    var after := ReadsWritten(extensions, tail, seen);
  }

  lemma EntryRewritten(region: seq<byte>)
    requires |region| >= 4 && 4 + Little(region[2..4]) <= |region|
    ensures var len := Little(region[2..4]);
      WrittenEntry(Extension(Little(region[..2]), region[4..4 + len])) + region[4 + len..] == region
    ensures Little(region[..2]) < 65536 && Little(region[2..4]) < 65536
  {
    LittleOfTwo(region[..2]);
    LittleOfTwo(region[2..4]);
    assert region[..2] + region[2..4] + region[4..4 + Little(region[2..4])] == region[..4 + Little(region[2..4])];
  }

  lemma OneMoreWritable(e: Extension, rest: seq<Extension>, seen: set<nat>)
    requires 0 < e.id < 65536 && |e.data| < 65536 && e.id !in seen && Writable(rest) && Unseen(rest, seen + {e.id})
    ensures Writable([e] + rest) && Unseen([e] + rest, seen)
  {
    var all := [e] + rest;
    forall i | 0 <= i < |all|
      ensures 0 < all[i].id < 65536 && |all[i].data| < 65536 && all[i].id !in seen
    {
      if i > 0 {
        assert all[i] == rest[i - 1];
      }
    }
    forall i, j | 0 <= i < j < |all|
      ensures all[i].id != all[j].id
    {
      assert all[j] == rest[j - 1];
      if i > 0 {
        assert all[i] == rest[i - 1];
      }
    }
  }

  lemma OneMoreWritten(e: Extension, rest: seq<Extension>, tail: seq<byte>)
    ensures Written([e] + rest) + tail == WrittenEntry(e) + (Written(rest) + tail)
  {
    assert ([e] + rest)[1..] == rest;
    WrittenSplits([e] + rest, tail);
  }

  lemma AcceptedEntry(region: seq<byte>, seen: set<nat>)
    requires region != [] && Extensions(region, seen).Ok? && Little(region[..2]) != 0
    ensures var id, len := Little(region[..2]), Little(region[2..4]);
      && 4 + len <= |region| && id !in seen && Extensions(region[4 + len..], seen + {id}).Ok?
      && Extensions(region, seen).value
         == [Extension(id, region[4..4 + len])] + Extensions(region[4 + len..], seen + {id}).value
  {}

  /** Writing inverts parsing: an accepted region is its extensions, written one after another, and an ending. */
  lemma {:induction false} WritingInvertsParsing(region: seq<byte>, seen: set<nat>) returns (tail: seq<byte>)
    requires Extensions(region, seen).Ok?
    ensures var extensions := Extensions(region, seen).value;
      && region == Written(extensions) + tail && Ending(tail) && Writable(extensions)
      && Unseen(extensions, seen)
    decreases |region|
  {
    if region == [] {
      tail := [];
    } else if Little(region[..2]) == 0 {
      LittleOfTwo(region[..2]);
      tail := region;
      assert Written([]) + tail == tail;
    } else {
      AcceptedEntry(region, seen);
      var id, len := Little(region[..2]), Little(region[2..4]);
      tail := WritingInvertsParsing(region[4 + len..], seen + {id});
      EntryRewritten(region);
      var e, rest := Extension(id, region[4..4 + len]), Extensions(region[4 + len..], seen + {id}).value;
      OneMoreWritable(e, rest, seen);
      OneMoreWritten(e, rest, tail);
    }
  }

  /** An authority as stored: absent with any 32 bytes, or present with its key. */
  datatype Authority = Authority(present: bool, key: seq<byte>)

  function WrittenAuthority(a: Authority): seq<byte> {
    Bytes(if a.present then 1 else 0, 4) + a.key
  }

  function WrittenBase(mint: Authority, freeze: Authority, supply: nat, decimals: byte): seq<byte> {
    WrittenAuthority(mint) + Bytes(supply, 8) + [decimals, 1] + WrittenAuthority(freeze)
  }

  /** A whole account: the base, and when extended the padding, the account type, the entries and an ending. */
  function WrittenAccount(base: seq<byte>, padding: seq<byte>, extensions: seq<Extension>, tail: seq<byte>): seq<byte> {
    base + padding + [1] + Written(extensions) + tail
  }

  function AddressOf(a: Authority): Option<string> {
    if a.present then Some(Text(a.key)) else None
  }

  lemma AuthorityReads(data: seq<byte>, offset: nat, a: Authority)
    requires |a.key| == 32 && offset + 36 <= |data| && data[offset..offset + 36] == WrittenAuthority(a)
    ensures !COptionAt(data, offset).Invalid? && Address(COptionAt(data, offset)) == AddressOf(a)
  {
    var tag := Bytes(if a.present then 1 else 0, 4);
    assert data[offset..offset + 4] == data[offset..offset + 36][..4] == tag;
    assert data[offset + 4..offset + 36] == data[offset..offset + 36][4..] == a.key;
    assert Pow256(4) == 256 * (256 * Pow256(2));
    LittleBytes(if a.present then 1 else 0, 4);
  }

  lemma BaseReads(mint: Authority, freeze: Authority, supply: nat, decimals: byte, after: seq<byte>)
    requires |mint.key| == 32 && |freeze.key| == 32 && supply < Pow256(8)
    ensures var data := WrittenBase(mint, freeze, supply, decimals) + after;
      && |data| == 82 + |after| && Little(data[36..44]) == supply && data[44] == decimals && data[45] == 1
      && !COptionAt(data, 0).Invalid? && Address(COptionAt(data, 0)) == AddressOf(mint)
      && !COptionAt(data, 46).Invalid? && Address(COptionAt(data, 46)) == AddressOf(freeze)
  {
    var data := WrittenBase(mint, freeze, supply, decimals) + after;
    assert data[0..36] == WrittenAuthority(mint);
    assert data[36..44] == Bytes(supply, 8);
    assert data[46..82] == WrittenAuthority(freeze);
    LittleBytes(supply, 8);
    AuthorityReads(data, 0, mint);
    AuthorityReads(data, 46, freeze);
  }

  /** An account with nothing after the base is a mint without extensions. */
  lemma BaseRoundTrips(mint: Authority, freeze: Authority, supply: nat, decimals: byte)
    requires |mint.key| == 32 && |freeze.key| == 32 && supply < Pow256(8)
    ensures Parse(WrittenBase(mint, freeze, supply, decimals))
      == Ok(Mint(AddressOf(mint), AddressOf(freeze), supply, decimals, []))
  {
    var base := WrittenBase(mint, freeze, supply, decimals);
    BaseReads(mint, freeze, supply, decimals, []);
    assert base + [] == base;
  }

  lemma RegionReads(base: seq<byte>, padding: seq<byte>, extensions: seq<Extension>, tail: seq<byte>)
    requires |base| == 82 && |padding| == 83 && Writable(extensions) && Ending(tail)
    ensures ExtensionRegion(WrittenAccount(base, padding, extensions, tail)) == Ok(extensions)
  {
    var data := WrittenAccount(base, padding, extensions, tail);
    assert data[165] == 1 && data[166..] == Written(extensions) + tail;
    ParsingInvertsWriting(extensions, tail, {});
  }

  /**
   * A written account parses to exactly what was written: authorities, supply, decimals and every extension in order,
   * whatever fills the padding, an absent authority's key and the bytes past the ending.
   */
  lemma AccountRoundTrips(
      mint: Authority, freeze: Authority, supply: nat, decimals: byte, padding: seq<byte>,
      extensions: seq<Extension>, tail: seq<byte>)
    requires |mint.key| == 32 && |freeze.key| == 32 && supply < Pow256(8) && |padding| == 83
    requires Writable(extensions) && Ending(tail)
    ensures Parse(WrittenAccount(WrittenBase(mint, freeze, supply, decimals), padding, extensions, tail))
      == Ok(Mint(AddressOf(mint), AddressOf(freeze), supply, decimals, extensions))
  {
    var base := WrittenBase(mint, freeze, supply, decimals);
    var after := padding + [1] + Written(extensions) + tail;
    BaseReads(mint, freeze, supply, decimals, after);
    RegionReads(base, padding, extensions, tail);
    BaseThenRest(base, padding, extensions, tail);
    ParsedFrom(base + after, mint, freeze, supply, decimals, extensions);
  }

  lemma BaseThenRest(base: seq<byte>, padding: seq<byte>, extensions: seq<Extension>, tail: seq<byte>)
    ensures WrittenAccount(base, padding, extensions, tail) == base + (padding + [1] + Written(extensions) + tail)
  {}

  /** An account whose fields and region read so parses to them. */
  lemma ParsedFrom(
      data: seq<byte>, mint: Authority, freeze: Authority, supply: nat, decimals: byte, extensions: seq<Extension>)
    requires |data| > BASE_MINT_LEN && Little(data[36..44]) == supply && data[44] == decimals && data[45] == 1
    requires !COptionAt(data, 0).Invalid? && Address(COptionAt(data, 0)) == AddressOf(mint)
    requires !COptionAt(data, 46).Invalid? && Address(COptionAt(data, 46)) == AddressOf(freeze)
    requires ExtensionRegion(data) == Ok(extensions)
    ensures Parse(data) == Ok(Mint(AddressOf(mint), AddressOf(freeze), supply, decimals, extensions))
  {}

  /** Every accepted account has distinct non-zero ids, whose values are consecutive slices of its extension region. */
  lemma AcceptedIsConsecutive(data: seq<byte>) returns (tail: seq<byte>)
    requires Parse(data).Ok?
    ensures var extensions := Parse(data).value.extensions;
      && Writable(extensions)
      && (if |data| > BASE_MINT_LEN then data[TLV_START..] == Written(extensions) + tail && Ending(tail)
          else extensions == [])
  {
    if |data| > BASE_MINT_LEN {
      tail := WritingInvertsParsing(data[TLV_START..], {});
    } else {
      tail := [];
    }
  }
}
