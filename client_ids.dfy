/** Client identifiers `kind-<xxh32 hexdigest of the project path>-default` and the
    Unix socket path derived from them. */
module ClientIds {
  import opened Options
  import opened Paths

  /** A 32-bit xxHash digest. */
  newtype u32 = x: int | 0 <= x < 0x1_0000_0000

  type ClientId = string

  function Pow16(n: nat): (p: nat)
    ensures p > 0
  {
    if n == 0 then 1 else 16 * Pow16(n - 1)
  }

  predicate IsHexChar(c: char)
  {
    '0' <= c <= '9' || 'a' <= c <= 'f'
  }

  /** The lower-case hexadecimal digit for `d`. */
  function HexChar(d: nat): (c: char)
    requires d < 16
    ensures IsHexChar(c) && HexValue(c) == d
  {
    if d < 10 then ('0' as int + d) as char else ('a' as int + d - 10) as char
  }

  function HexValue(c: char): (d: nat)
    requires IsHexChar(c)
    ensures d < 16
  {
    if c <= '9' then c as int - '0' as int else c as int - 'a' as int + 10
  }

  /** The last `width` hexadecimal digits of `n`, most significant first, zero-padded. */
  function Hex(n: nat, width: nat): (s: string)
    ensures |s| == width
    ensures forall i | 0 <= i < |s| :: IsHexChar(s[i])
  {
    if width == 0 then "" else Hex(n / 16, width - 1) + [HexChar(n % 16)]
  }

  /** The value of a string of hexadecimal digits, most significant first. */
  function ParseHex(s: string): nat
    requires forall i | 0 <= i < |s| :: IsHexChar(s[i])
  {
    if |s| == 0 then 0 else ParseHex(s[..|s| - 1]) * 16 + HexValue(s[|s| - 1])
  }

  /** A number below 16^width survives a round trip through its digits. */
  lemma {:induction false} ParseHexOfHex(n: nat, width: nat)
    requires n < Pow16(width)
    ensures ParseHex(Hex(n, width)) == n
  {
    if width > 0 {
      var s := Hex(n, width);
      assert s[..|s| - 1] == Hex(n / 16, width - 1);
      ParseHexOfHex(n / 16, width - 1);
    }
  }

  /** Any string of `width` digits denotes a number below 16^width. */
  lemma {:induction false} ParseHexBound(s: string)
    requires forall i | 0 <= i < |s| :: IsHexChar(s[i])
    ensures ParseHex(s) < Pow16(|s|)
  {
    if |s| > 0 {
      ParseHexBound(s[..|s| - 1]);
    }
  }

  /** `xxh32_hexdigest`: the digest as exactly eight lower-case hexadecimal digits. */
  function HexDigest(d: u32): (s: string)
    ensures |s| == 8 && forall i | 0 <= i < 8 :: IsHexChar(s[i])
  {
    Hex(d as nat, 8)
  }

  /** `get_client_id`: the language kind, the project path digest and the `default` suffix. */
  function ClientIdOf(kind: string, digest: u32): (id: ClientId)
    ensures |id| == |kind| + 17
    ensures id[..|kind|] == kind && id[|id| - 8..] == "-default"
  {
    kind + "-" + HexDigest(digest) + "-default"
  }

  /** Reads the kind and the digest back from an identifier. */
  function ParseClientId(id: ClientId): Option<(string, u32)>
  {
    if |id| < 17 || id[|id| - 8..] != "-default" || id[|id| - 17] != '-' then None
    else
      var hex := id[|id| - 16..|id| - 8];
      if forall i | 0 <= i < |hex| :: IsHexChar(hex[i]) then
        ParseHexBound(hex);
        assert Pow16(8) == 0x1_0000_0000;
        Some((id[..|id| - 17], ParseHex(hex) as u32))
      else None
  }

  /** Parsing inverts the identifier construction. */
  lemma ClientIdRoundTrip(kind: string, digest: u32)
    ensures ParseClientId(ClientIdOf(kind, digest)) == Some((kind, digest))
  {
    var hex := HexDigest(digest);
    var id := ClientIdOf(kind, digest);
    var n := |id|;
    assert id == kind + ("-" + hex + "-default");
    assert id[n - 17] == '-';
    assert id[n - 16..n - 8] == hex;
    assert id[..n - 17] == kind;
    ParseHexOfHex(digest as nat, 8);
  }

  /** Two targets get the same identifier exactly when their kinds and path digests agree. */
  lemma ClientIdInjective(k1: string, d1: u32, k2: string, d2: u32)
    ensures ClientIdOf(k1, d1) == ClientIdOf(k2, d2) <==> k1 == k2 && d1 == d2
  {
    ClientIdRoundTrip(k1, d1);
    ClientIdRoundTrip(k2, d2);
  }

  /** `uds_path`: `RUNTIME_DIR / f"{id}.sock"`. */
  function SocketPath(runtimeDir: Path, id: ClientId): (p: Path)
    ensures |p.parts| == |runtimeDir.parts| + 1
    ensures p.parts[..|runtimeDir.parts|] == runtimeDir.parts && p.parts[|runtimeDir.parts|] == id + ".sock"
  {
    Join(runtimeDir, id + ".sock")
  }

  /** The socket path depends only on the identifier, and distinct identifiers in the
      same runtime directory never share a socket. */
  lemma SocketPathInjective(dir: Path, a: ClientId, b: ClientId)
    ensures SocketPath(dir, a) == SocketPath(dir, b) <==> a == b
  {
    JoinInjective(dir, a + ".sock", dir, b + ".sock");
    if a + ".sock" == b + ".sock" {
      assert a == (a + ".sock")[..|a|] == (b + ".sock")[..|b|] == b;
    }
  }
}
