/** Stand-ins for the two cryptographic libraries the routes call: bcrypt
    (password hashing) and jsonwebtoken (signed identity tokens). Both are
    given concrete, deliberately simple definitions so that the properties
    the routes rely on (a hash is never the plaintext and checks against it;
    a signed token verifies to its claims until it expires, and only under
    the secret it was signed with) are proved here rather than assumed. */
module Crypto {
  import opened Common
  import opened Text
  import opened Decimal

  /** The bcrypt cost the register route passes (`saltRounds`). */
  const SaltRounds: nat := 12

  /** bcrypt's version-and-cost header for cost 12. */
  const HashHeader: string := "$2a$12$"

  /** `bcrypt.hash(password, 12)`. */
  function Hash(password: string): (h: string)
    ensures h != password && |h| > |password|
  {
    HashHeader + password
  }

  /** `bcrypt.compare(password, hash)`. */
  predicate Compare(password: string, hash: string) {
    hash == Hash(password)
  }

  /** A password checks against its own hash, and against no other
      password's hash. */
  lemma CompareHash(password: string, other: string)
    ensures Compare(password, Hash(password))
    ensures Compare(other, Hash(password)) <==> other == password
  {
    if Compare(other, Hash(password)) {
      assert other == Hash(other)[|HashHeader|..] == Hash(password)[|HashHeader|..];
    }
  }

  /** `expiresIn: '7d'`, in seconds. */
  const TokenLifetime: nat := 7 * 24 * 60 * 60

  /** The secret used when `JWT_SECRET` is unset or empty. */
  const FallbackSecret: string := "your-fallback-secret-key"

  /** `process.env.JWT_SECRET || 'your-fallback-secret-key'`. */
  function Secret(env: Option<string>): (secret: string)
    ensures secret != ""
    ensures Present(env) ==> secret == env.value
  {
    OrElse(env, FallbackSecret)
  }

  /** What a token asserts about its holder; `req.user` once verified. */
  datatype Claims = Claims(userId: Id, email: string, role: string)

  /** A length-prefixed field: the decimal length, a colon, the text. */
  function Field(s: string): string {
    NatToString(|s|) + ":" + s
  }

  /** Reads one length-prefixed field off the front of `t`, returning it and
      the text after it, which is a suffix of `t`. */
  function ParseField(t: string): (r: Option<(string, string)>)
    ensures r.Some? ==> |r.value.1| < |t| && r.value.1 == t[|t| - |r.value.1|..]
  {
    match IndexOf(t, ':')
    case None => None
    case Some(i) =>
      match ParseNat(t[..i])
      case None => None
      case Some(n) =>
        if i + 1 + n <= |t| then Some((t[i + 1..i + 1 + n], t[i + 1 + n..])) else None
  }

  /** Reading a field back off a string that starts with it. */
  lemma ParseFieldOf(s: string, rest: string)
    ensures ParseField(Field(s) + rest) == Some((s, rest))
  {
    var d := NatToString(|s|);
    var t := Field(s) + rest;
    assert t == d + [':'] + (s + rest);
    NoDigitIn(d, ':');
    IndexOfAfter(d, ':', s + rest);
    assert t[..|d|] == d;
    ParseRendering(|s|);
    assert t[|d| + 1..|d| + 1 + |s|] == s;
    assert t[|d| + 1 + |s|..] == rest;
  }

  /** Several fields, one after the other. */
  function Fields(fs: seq<string>): string {
    if fs == [] then [] else Field(fs[0]) + Fields(fs[1..])
  }

  /** Reads `n` fields off the front of `t`, returning them and the text after
      them, which is a suffix of `t`. */
  function ParseFields(t: string, n: nat): (r: Option<(seq<string>, string)>)
    ensures r.Some? ==> |r.value.0| == n && IsSuffix(r.value.1, t)
  {
    if n == 0 then Some(([], t))
    else
      match ParseField(t)
      case None => None
      case Some((f, rest)) =>
        match ParseFields(rest, n - 1)
        case None => None
        case Some((fs, tail)) =>
          SuffixTransitive(tail, rest, t);
          Some(([f] + fs, tail))
  }

  predicate IsSuffix(a: string, b: string) {
    |a| <= |b| && a == b[|b| - |a|..]
  }

  lemma SuffixTransitive(a: string, b: string, c: string)
    requires IsSuffix(a, b) && |b| < |c| && b == c[|c| - |b|..]
    ensures IsSuffix(a, c)
  {
    assert forall i :: 0 <= i < |a| ==> a[i] == b[|b| - |a| + i] == c[|c| - |a| + i];
  }

  /** Reading fields back off a string that starts with them. */
  lemma {:induction false} ParseFieldsOf(fs: seq<string>, rest: string)
    ensures ParseFields(Fields(fs) + rest, |fs|) == Some((fs, rest))
  {
    if fs != [] {
      ParseFieldsOf(fs[1..], rest);
      ParseFieldsCons(fs, rest);
    }
  }

  /** If the fields after the first read back, so do all of them. */
  lemma ParseFieldsCons(fs: seq<string>, rest: string)
    requires fs != [] && ParseFields(Fields(fs[1..]) + rest, |fs| - 1) == Some((fs[1..], rest))
    ensures ParseFields(Fields(fs) + rest, |fs|) == Some((fs, rest))
  {
    var tail := Fields(fs[1..]) + rest;
    var t := Fields(fs) + rest;
    assert ParseField(t) == Some((fs[0], tail)) by {
      FieldsCons(fs, rest);
      ParseFieldOf(fs[0], tail);
    }
    ParseFieldsStep(t, fs, tail, rest);
  }

  lemma FieldsCons(fs: seq<string>, rest: string)
    requires fs != []
    ensures Fields(fs) + rest == Field(fs[0]) + (Fields(fs[1..]) + rest)
  {
  }

  lemma ParseFieldsStep(t: string, fs: seq<string>, tail: string, rest: string)
    requires fs != [] && ParseField(t) == Some((fs[0], tail))
    requires ParseFields(tail, |fs| - 1) == Some((fs[1..], rest))
    ensures ParseFields(t, |fs|) == Some((fs, rest))
  {
    assert [fs[0]] + fs[1..] == fs;
  }

  /** The signed part of a token: its claims, issue time and expiry time. */
  function Payload(c: Claims, iat: nat, exp: nat): string {
    Fields([NatToString(c.userId), c.email, c.role, NatToString(iat), NatToString(exp)])
  }

  /** The signature of a payload under a secret. */
  function Signature(secret: string, payload: string): string {
    Hash(secret + "." + payload)
  }

  /** `jwt.sign({userId, email, role}, secret, {expiresIn: '7d'})` at clock
      reading `now` (milliseconds). */
  function Sign(secret: string, c: Claims, now: nat): string {
    var iat := now / 1000;
    var payload := Payload(c, iat, iat + TokenLifetime);
    payload + Field(Signature(secret, payload))
  }

  /** `jwt.verify(token, secret)` at clock reading `now` (milliseconds): the
      claims when the token is well formed, its signature matches the
      secret and it has not expired; `None` where the library throws. */
  function Verify(secret: string, token: string, now: nat): Option<Claims> {
    match ParseFields(token, 5)
    case None => None
    case Some((fs, rest)) =>
      match ParseField(rest)
      case None => None
      case Some((sig, tail)) =>
        if tail != [] || sig != Signature(secret, token[..|token| - |rest|]) then None
        else
          match (ParseNat(fs[0]), ParseNat(fs[4]))
          case (Some(uid), Some(exp)) =>
            if now / 1000 < exp then Some(Claims(uid, fs[1], fs[2])) else None
          case _ => None
  }

  /** A signed token reads back as its five payload fields followed by the
      signature field. */
  lemma {:induction false} SignFields(secret: string, c: Claims, now: nat)
    ensures var iat := now / 1000;
      var fs := [NatToString(c.userId), c.email, c.role, NatToString(iat), NatToString(iat + TokenLifetime)];
      var t := Sign(secret, c, now);
      var rest := Field(Signature(secret, Fields(fs)));
      && ParseFields(t, 5) == Some((fs, rest))
      && ParseField(rest) == Some((Signature(secret, Fields(fs)), []))
      && t[..|t| - |rest|] == Fields(fs)
  {
    var iat := now / 1000;
    var fs := [NatToString(c.userId), c.email, c.role, NatToString(iat), NatToString(iat + TokenLifetime)];
    var rest := Field(Signature(secret, Fields(fs)));
    ParseFieldsOf(fs, rest);
    assert rest == rest + [];
    ParseFieldOf(Signature(secret, Fields(fs)), []);
  }

  /** A token verifies, under the secret that signed it, to exactly the
      claims it was signed with for seven days (counted in whole seconds
      from its issue), and fails from then on. */
  lemma {:induction false} VerifySigned(secret: string, c: Claims, issued: nat, now: nat)
    ensures Verify(secret, Sign(secret, c, issued), now)
         == if now / 1000 < issued / 1000 + TokenLifetime then Some(c) else None
  {
    var iat := issued / 1000;
    var fs := [NatToString(c.userId), c.email, c.role, NatToString(iat), NatToString(iat + TokenLifetime)];
    var t := Sign(secret, c, issued);
    var rest := Field(Signature(secret, Fields(fs)));
    SignFields(secret, c, issued);
    ParseRendering(c.userId);
    ParseRendering(iat + TokenLifetime);
    assert ParseNat(fs[0]) == Some(c.userId) && ParseNat(fs[4]) == Some(iat + TokenLifetime);
    assert Verify(secret, t, now)
        == if now / 1000 < iat + TokenLifetime then Some(Claims(c.userId, fs[1], fs[2])) else None;
  }

  /** A token signed under one secret is rejected under any other. */
  lemma {:induction false} VerifyOtherSecret(secret: string, other: string, c: Claims, issued: nat, now: nat)
    requires other != secret
    ensures Verify(other, Sign(secret, c, issued), now) == None
  {
    SignFields(secret, c, issued);
    var p := Payload(c, issued / 1000, issued / 1000 + TokenLifetime);
    SignatureInjective(secret, other, p);
  }

  /** Different secrets give different signatures of the same payload. */
  lemma SignatureInjective(secret: string, other: string, p: string)
    requires other != secret
    ensures Signature(other, p) != Signature(secret, p)
  {
    CompareHash(secret + "." + p, other + "." + p);
    if |other| == |secret| {
      assert other == (other + "." + p)[..|other|];
      assert secret == (secret + "." + p)[..|secret|];
    }
  }

  /** A token verifies under at most one secret: whatever its origin, the
      signature it carries was made with the secret that admits it. */
  lemma VerifyUniqueSecret(secret: string, other: string, token: string, now: nat)
    requires other != secret && Verify(secret, token, now).Some?
    ensures Verify(other, token, now) == None
  {
    var (fs, rest) := ParseFields(token, 5).value;
    SignatureInjective(secret, other, token[..|token| - |rest|]);
  }

  /** A token is rejected once the clock passes seven days after its issue. */
  lemma {:induction false} SignedTokenExpires(secret: string, c: Claims, issued: nat, now: nat)
    requires now >= issued + TokenLifetime * 1000
    ensures Verify(secret, Sign(secret, c, issued), now) == None
  {
    VerifySigned(secret, c, issued, now);
  }
}
