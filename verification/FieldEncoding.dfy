/** The length-prefixed field encoding that fingerprints and ids hash (pkg/codesignal/fingerprint.go).
    Bytes are chars below 256. */
module FieldEncoding {
  import opened Options

  const BYTE := 0x100
  const WORD := 0x1_0000_0000

  /** A length as four big-endian bytes; the conversion to 32 bits wraps. */
  function LengthPrefix(n: nat): (p: string)
    ensures |p| == 4
  {
    var w := n % WORD;
    [(w / 0x100_0000) as char, (w / 0x1_0000 % BYTE) as char, (w / 0x100 % BYTE) as char, (w % BYTE) as char]
  }

  function ReadLength(p: string): nat
    requires |p| == 4
  {
    p[0] as nat * 0x100_0000 + p[1] as nat * 0x1_0000 + p[2] as nat * 0x100 + p[3] as nat
  }

  /** appendLengthPrefixed, field after field. */
  function Encode(fields: seq<string>): string {
    if fields == [] then "" else LengthPrefix(|fields[0]|) + fields[0] + Encode(fields[1..])
  }

  method AppendLengthPrefixed(buf: string, field: string) returns (out: string)
    ensures out == buf + Encode([field])
  {
    out := buf + LengthPrefix(|field|);
    out := out + field;
    assert [field][1..] == [];
    assert Encode([field]) == LengthPrefix(|field|) + field + "";
  }

  /** Reads fields off a buffer until it is used up. */
  function Decode(buf: string): Option<seq<string>>
    decreases |buf|
  {
    if buf == "" then Some([])
    else if |buf| < 4 then None
    else
      var n := ReadLength(buf[..4]);
      if |buf| < 4 + n then None
      else match Decode(buf[4 + n..])
        case None => None
        case Some(rest) => Some([buf[4..4 + n]] + rest)
  }

  /** The most significant byte comes first. */
  lemma PrefixIsBigEndian(n: nat)
    requires n < WORD
    ensures var p := LengthPrefix(n);
      && (forall i | 0 <= i < 4 :: p[i] as int < 256)
      && n == p[0] as int * 16777216 + p[1] as int * 65536 + p[2] as int * 256 + p[3] as int
  {
    PrefixReads(n);
  }

  lemma PrefixReads(n: nat)
    ensures ReadLength(LengthPrefix(n)) == n % WORD
  {
    var w := n % WORD;
    assert w / 0x1_0000 == w / 0x100_0000 * BYTE + w / 0x1_0000 % BYTE;
    assert w / 0x100 == w / 0x1_0000 * BYTE + w / 0x100 % BYTE;
    assert w == w / 0x100 * BYTE + w % BYTE;
  }

  predicate Short(fields: seq<string>) {
    forall f | f in fields :: |f| < WORD
  }

  lemma SplitBuffer(p: string, f: string, rest: string)
    requires |p| == 4
    ensures var buf := p + f + rest;
            |buf| == 4 + |f| + |rest| && buf[..4] == p && buf[4..4 + |f|] == f && buf[4 + |f|..] == rest
  {
  }

  lemma DecodeField(p: string, f: string, rest: string)
    requires |p| == 4 && ReadLength(p) == |f| && Decode(rest).Some?
    ensures Decode(p + f + rest) == Some([f] + Decode(rest).value)
  {
    SplitBuffer(p, f, rest);
  }

  /** The encoding is uniquely decodable: fields under 2^32 bytes come back exactly. */
  lemma {:induction false} DecodeUndoesEncode(fields: seq<string>)
    requires Short(fields)
    ensures Decode(Encode(fields)) == Some(fields)
  {
    if fields != [] {
      DecodeUndoesEncode(fields[1..]);
      PrefixReads(|fields[0]|);
      DecodeField(LengthPrefix(|fields[0]|), fields[0], Encode(fields[1..]));
      assert fields == [fields[0]] + fields[1..];
    }
  }

  lemma EncodeInjective(a: seq<string>, b: seq<string>)
    requires Short(a) && Short(b) && Encode(a) == Encode(b)
    ensures a == b
  {
    DecodeUndoesEncode(a);
    DecodeUndoesEncode(b);
  }

  /** No two inputs collide. */
  ghost predicate Injective(hash: string -> string) {
    forall a, b | hash(a) == hash(b) :: a == b
  }

  // ----- decimal numbers -----

  /** `strconv.Itoa` of a non-negative number. */
  function Itoa(n: nat): (s: string)
    ensures s != ""
  {
    if n < 10 then [(n + '0' as int) as char] else Itoa(n / 10) + [(n % 10 + '0' as int) as char]
  }

  lemma {:induction false} ItoaInjective(m: nat, n: nat)
    requires Itoa(m) == Itoa(n)
    ensures m == n
  {
    var s := Itoa(m);
    assert s[|s| - 1] as int - '0' as int == m % 10 == n % 10;
    if m < 10 || n < 10 {
      ItoaLength(m);
      ItoaLength(n);
    } else {
      assert Itoa(m / 10) == s[..|s| - 1] == Itoa(n / 10);
      ItoaInjective(m / 10, n / 10);
    }
  }

  lemma ItoaLength(n: nat)
    ensures n < 10 <==> |Itoa(n)| == 1
  {
  }
}
