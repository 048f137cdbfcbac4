/** Credentials of a secondary API server, the byte string their fingerprint hashes, and
    the REST configuration a client is built from. */
module Fingerprint {
  type Bytes = seq<bv8>

  datatype ClientConfig = ClientConfig(host: string, caCert: Bytes, clientCert: Bytes, clientKey: Bytes, token: Bytes)

  /** The bytes written into the hash: the four fields, separated by NUL. */
  function Serialise(c: ClientConfig): Bytes {
    c.caCert + [0] + c.clientCert + [0] + c.clientKey + [0] + c.token
  }

  predicate NulFree(c: ClientConfig) {
    0 !in c.caCert && 0 !in c.clientCert && 0 !in c.clientKey && 0 !in c.token
  }

  ghost predicate Injective(hash: Bytes -> Bytes) {
    forall a, b :: hash(a) == hash(b) ==> a == b
  }

  // ----- what a client is built from ---------------------------------------------------

  datatype RestConfig = RestConfig(
    host: string, caData: Bytes, insecure: bool, bearerToken: Bytes, certData: Bytes, keyData: Bytes)

  /** The REST configuration of a client: no verification without a CA, a token before a
      certificate, a certificate only together with its key. */
  function Rest(c: ClientConfig): RestConfig {
    var certified := c.token == [] && c.clientCert != [] && c.clientKey != [];
    RestConfig(c.host, c.caCert, c.caCert == [], c.token,
               if certified then c.clientCert else [], if certified then c.clientKey else [])
  }

  /** buildRESTConfig: verification is off exactly without a CA, a token wins over a
      client certificate, and a certificate is used only together with its key. */
  method BuildRESTConfig(c: ClientConfig) returns (r: RestConfig)
    ensures r == Rest(c)
    ensures r.host == c.host && r.caData == c.caCert && (r.insecure <==> c.caCert == [])
    ensures r.bearerToken == c.token
    ensures if c.token == [] && c.clientCert != [] && c.clientKey != []
            then r.certData == c.clientCert && r.keyData == c.clientKey
            else r.certData == [] && r.keyData == []
  {
    r := RestConfig(c.host, [], false, [], [], []);
    if |c.caCert| > 0 { r := r.(caData := c.caCert); } else { r := r.(insecure := true); }
    if c.token != [] {
      r := r.(bearerToken := c.token);
    } else if |c.clientCert| > 0 && |c.clientKey| > 0 {
      r := r.(certData := c.clientCert, keyData := c.clientKey);
    }
  }

  // ----- the serialisation determines NUL-free credentials, and only those ---------

  /** A field that ends at the first NUL can be read off. */
  lemma FieldReads(a: Bytes, x: Bytes, b: Bytes, y: Bytes)
    requires a + [0] + x == b + [0] + y
    requires 0 !in a && 0 !in b
    ensures a == b && x == y
  {
    var s, t := a + [0] + x, b + [0] + y;
    assert s[|a|] == 0 && t[|b|] == 0;
    assert forall i :: 0 <= i < |a| ==> s[i] == a[i];
    assert forall i :: 0 <= i < |b| ==> t[i] == b[i];
    assert |a| == |b|;
    assert a == s[..|a|] && b == t[..|b|];
    assert x == s[|a| + 1..] && y == t[|b| + 1..];
  }

  /** Among configurations whose first three fields are NUL-free the serialisation is injective. */
  lemma SerialiseInjective(c: ClientConfig, d: ClientConfig)
    requires Serialise(c) == Serialise(d) && c.host == d.host
    requires 0 !in c.caCert && 0 !in c.clientCert && 0 !in c.clientKey
    requires 0 !in d.caCert && 0 !in d.clientCert && 0 !in d.clientKey
    ensures c == d
  {
    var x, y := c.clientKey + [0] + c.token, d.clientKey + [0] + d.token;
    assert Serialise(c) == c.caCert + [0] + (c.clientCert + [0] + x);
    assert Serialise(d) == d.caCert + [0] + (d.clientCert + [0] + y);
    FieldReads(c.caCert, c.clientCert + [0] + x, d.caCert, d.clientCert + [0] + y);
    FieldReads(c.clientCert, x, d.clientCert, y);
    FieldReads(c.clientKey, c.token, d.clientKey, d.token);
  }

  function Nuls(s: Bytes): nat {
    if s == [] then 0 else (if s[0] == 0 then 1 else 0) + Nuls(s[1..])
  }

  lemma {:induction false} NulsConcat(a: Bytes, b: Bytes)
    ensures Nuls(a + b) == Nuls(a) + Nuls(b)
  {
    if a == [] {
      assert a + b == b;
    } else {
      assert (a + b)[1..] == a[1..] + b;
      NulsConcat(a[1..], b);
    }
  }

  lemma {:induction false} NulsZero(a: Bytes)
    ensures Nuls(a) == 0 <==> 0 !in a
  {
    if a != [] { NulsZero(a[1..]); }
  }

  lemma SerialiseNuls(c: ClientConfig)
    ensures Nuls(Serialise(c)) == 3 + Nuls(c.caCert) + Nuls(c.clientCert) + Nuls(c.clientKey) + Nuls(c.token)
  {
    var sep: Bytes := [0];
    assert Nuls(sep) == 1 by { assert sep[1..] == []; }
    NulsConcat(c.caCert + sep + c.clientCert + sep + c.clientKey + sep, c.token);
    NulsConcat(c.caCert + sep + c.clientCert + sep + c.clientKey, sep);
    NulsConcat(c.caCert + sep + c.clientCert + sep, c.clientKey);
    NulsConcat(c.caCert + sep + c.clientCert, sep);
    NulsConcat(c.caCert + sep, c.clientCert);
    NulsConcat(c.caCert, sep);
  }

  /** Whatever serialises like a NUL-free configuration for the same host is that configuration. */
  lemma NulFreeUnique(c: ClientConfig, d: ClientConfig)
    requires NulFree(c) && Serialise(d) == Serialise(c) && d.host == c.host
    ensures d == c
  {
    SerialiseNuls(c);
    SerialiseNuls(d);
    NulsZero(c.caCert); NulsZero(c.clientCert); NulsZero(c.clientKey); NulsZero(c.token);
    NulsZero(d.caCert); NulsZero(d.clientCert); NulsZero(d.clientKey); NulsZero(d.token);
    SerialiseInjective(c, d);
  }

  lemma SplitAtNul(s: Bytes) returns (x: Bytes, y: Bytes)
    requires 0 in s
    ensures s == x + [0] + y && |x| < |s|
  {
    var i :| 0 <= i < |s| && s[i] == 0;
    x, y := s[..i], s[i + 1..];
  }

  /** Where a NUL sits, the separators can be moved onto it; the other configuration then
      has another CA or another token, so its clients connect differently. */
  lemma NulTwin(c: ClientConfig) returns (d: ClientConfig)
    requires !NulFree(c)
    ensures d != c && d.host == c.host && Serialise(d) == Serialise(c)
    ensures Rest(d) != Rest(c)
  {
    if 0 in c.caCert {
      var x, y := SplitAtNul(c.caCert);
      d := ClientConfig(c.host, x, y, c.clientCert, c.clientKey + [0] + c.token);
    } else if 0 in c.clientCert {
      var x, y := SplitAtNul(c.clientCert);
      d := ClientConfig(c.host, c.caCert, x, y, c.clientKey + [0] + c.token);
      assert |d.token| > |c.token|;
    } else if 0 in c.clientKey {
      var x, y := SplitAtNul(c.clientKey);
      d := ClientConfig(c.host, c.caCert, c.clientCert, x, y + [0] + c.token);
      assert |d.token| > |c.token|;
    } else {
      var x, y := SplitAtNul(c.token);
      d := ClientConfig(c.host, c.caCert + [0] + c.clientCert, c.clientKey, x, y);
      assert |d.caCert| > |c.caCert|;
    }
  }

  /** A configuration is determined by its host and its serialisation exactly when none
      of its fields contains a NUL. */
  lemma SerialiseDetermines(c: ClientConfig)
    ensures (forall d: ClientConfig :: d.host == c.host && Serialise(d) == Serialise(c) ==> d == c) <==> NulFree(c)
    ensures (forall d: ClientConfig :: d.host == c.host && Serialise(d) == Serialise(c) ==> Rest(d) == Rest(c))
            <==> NulFree(c)
  {
    if NulFree(c) {
      forall d: ClientConfig | d.host == c.host && Serialise(d) == Serialise(c) ensures d == c {
        NulFreeUnique(c, d);
      }
    } else {
      var d := NulTwin(c);
    }
  }
}
