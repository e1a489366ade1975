/** The content-store half of `DappCore` (models/model.js:225-256):
    `writeFile` pushes a block and hands back its hash without the 2-byte
    multihash header, `readFile` puts the header back to fetch the block.
    The store is the pair of parameters `push` (`ipfs.PushBlockString`) and
    `fetch` (`ipfs.GetBlock`). Hashes are hex strings. */
module FileStore {
  import opened Wrappers

  /** `ipfsHead`: "0x", then the multihash header 0x12 (sha2-256) 0x20
      (32-byte digest) as four hex digits. */
  const IpfsHead := "0x1220"

  /** The header as it starts a store-native id. */
  const NativeHead := "1220"

  predicate IsHexDigit(c: char) {
    ('0' <= c <= '9') || ('a' <= c <= 'f') || ('A' <= c <= 'F')
  }

  predicate IsHex(s: string) {
    forall i :: 0 <= i < |s| ==> IsHexDigit(s[i])
  }

  /** A store-native id of a sha2-256 block: the header, then the 32-byte
      digest as 64 hex digits. */
  predicate IsNativeId(id: string) {
    |id| == 68 && id[..4] == NativeHead && IsHex(id[4..])
  }

  /** `"0x" + id.slice(4)`: the id with its four header digits dropped
      (`slice` past the end gives ""), behind a "0x" prefix. For a native
      id this is exactly the 32-byte digest, and it gives the id back when
      the header is put in front again. */
  function ExposedHash(id: string): (h: string)
    ensures |h| >= 2 && h[..2] == "0x"
    ensures |id| <= 4 ==> h == "0x"
    ensures |id| > 4 ==> id[..4] + h[2..] == id
    ensures IsNativeId(id) ==> |h| == 66 && IsHex(h[2..]) && NativeHead + h[2..] == id
  {
    "0x" + (if |id| <= 4 then "" else id[4..])
  }

  /** `writeFile(data)`: "" when the store reports an error, otherwise the
      store's id with its header replaced by "0x". */
  function WriteFile(push: string -> Backend<string>, data: string): (r: string)
    ensures push(data).Err? ==> r == ""
    ensures push(data).Ok? ==> r == ExposedHash(push(data).data) && r != ""
  {
    match push(data)
    case Err(_) => ""
    case Ok(id) => ExposedHash(id)
  }

  /** The id `readFile(hash)` asks the store for: `ipfsHead` followed by
      `hash`, after dropping its first two characters when the second one
      is 'x' (`hash[1] === 'x'`). */
  function FullId(hash: string): (id: string)
    ensures |id| >= 6 && id[..6] == IpfsHead
    ensures |hash| > 1 && hash[1] == 'x' ==> id == IpfsHead + hash[2..]
    ensures !(|hash| > 1 && hash[1] == 'x') ==> id == IpfsHead + hash
  {
    var bare := if |hash| > 1 && hash[1] == 'x' then hash[2..] else hash;
    IpfsHead + bare
  }

  /** `readFile(hash)`: the data of the block `FullId(hash)`, or "" when
      the store reports an error. */
  function ReadFile(fetch: string -> Backend<string>, hash: string): (r: string)
    ensures fetch(FullId(hash)).Err? ==> r == ""
    ensures fetch(FullId(hash)).Ok? ==> r == fetch(FullId(hash)).data
  {
    match fetch(FullId(hash))
    case Err(_) => ""
    case Ok(data) => data
  }

  /** A hex hash names the same block with or without its "0x" prefix. */
  lemma FullIdIgnoresHexPrefix(h: string)
    requires IsHex(h)
    ensures FullId("0x" + h) == IpfsHead + h
    ensures FullId(h) == IpfsHead + h
  {
  }

  /** The hash `writeFile` returns leads `readFile` to the stored block's
      own id behind "0x", and is a 32-byte digest. */
  lemma WriteThenReadNamesBlock(push: string -> Backend<string>, data: string)
    requires push(data).Ok? && IsNativeId(push(data).data)
    ensures var h := WriteFile(push, data);
            && |h| == 66 && IsHex(h[2..])
            && FullId(h) == "0x" + push(data).data
  {
  }

  /** Reading back what was written: when the store serves a block under
      its id with a "0x" prefix, `readFile(writeFile(x)) == x`. */
  lemma ReadAfterWrite(push: string -> Backend<string>, fetch: string -> Backend<string>, data: string)
    requires push(data).Ok? && IsNativeId(push(data).data)
    requires fetch("0x" + push(data).data) == Ok(data)
    ensures ReadFile(fetch, WriteFile(push, data)) == data
  {
    WriteThenReadNamesBlock(push, data);
  }

  /** The prefix test looks only at the second character: any two-character
      prefix ending in 'x' is dropped, and an upper-case "0X" is kept. */
  lemma PrefixTestIsSecondCharOnly(h: string)
    ensures FullId("1x" + h) == IpfsHead + h
    ensures FullId("0X" + h) == IpfsHead + "0X" + h
  {
  }
}
