/** What is hashed and signed: both pre-images determine their parts. */
module Encoding {
  import opened Common
  import opened FileTree
  import opened Decimal

  // ---- Splitting at a separator ----------------------------------------------------------------

  function FirstAt<T(==)>(s: seq<T>, sep: T): nat {
    if s == [] || s[0] == sep then 0 else 1 + FirstAt(s[1..], sep)
  }

  lemma {:induction false} FirstAtPrefix<T>(a: seq<T>, sep: T, x: seq<T>)
    requires sep !in a
    ensures FirstAt(a + [sep] + x, sep) == |a|
  {
    if a != [] {
      assert (a + [sep] + x)[1..] == a[1..] + [sep] + x;
      FirstAtPrefix(a[1..], sep, x);
    }
  }

  /** What stands before and after the first separator can be found again. */
  lemma FirstSeparator<T>(sep: T, a: seq<T>, x: seq<T>, a': seq<T>, x': seq<T>)
    requires sep !in a && sep !in a' && a + [sep] + x == a' + [sep] + x'
    ensures a == a' && x == x'
  {
    FirstAtPrefix(a, sep, x);
    FirstAtPrefix(a', sep, x');
    var s, s' := a + [sep] + x, a' + [sep] + x';
    assert s[..|a|] == a && s'[..|a|] == a';
    assert s[|a| + 1..] == x && s'[|a| + 1..] == x';
  }

  // ---- Request hash ----------------------------------------------------------------------------

  /** `to_le_bytes` on `n` octets. */
  function LittleEndian(m: nat, n: nat): (s: seq<byte>)
    ensures |s| == n
  {
    if n == 0 then [] else [m % 256] + LittleEndian(m / 256, n - 1)
  }

  function FromLittleEndian(s: seq<byte>): nat {
    if s == [] then 0 else s[0] + 256 * FromLittleEndian(s[1..])
  }

  function Power256(n: nat): nat {
    if n == 0 then 1 else 256 * Power256(n - 1)
  }

  lemma {:induction false} LittleEndianRoundTrip(m: nat, n: nat)
    requires m < Power256(n)
    ensures FromLittleEndian(LittleEndian(m, n)) == m
  {
    if n > 0 {
      LittleEndianRoundTrip(m / 256, n - 1);
      assert LittleEndian(m, n)[1..] == LittleEndian(m / 256, n - 1);
    }
  }

  lemma WordFits(m: nat)
    requires m <= U64_MAX
    ensures m < Power256(8)
  {
    assert Power256(4) == 0x1_0000_0000 by {
      assert Power256(2) == 0x1_0000;
    }
    assert Power256(6) == 0x1_0000_0000_0000;
    assert Power256(8) == U64_MAX + 1;
  }

  const BAR: byte := 0x7C

  function RequestPreimage(action: seq<byte>, target: seq<byte>, magnitude: nat): seq<byte> {
    action + [BAR] + target + [BAR] + LittleEndian(magnitude, 8)
  }

  lemma {:induction false} ZeroOctets(n: nat)
    ensures LittleEndian(0, n) == seq(n, _ => 0)
  {
    if n > 0 {
      ZeroOctets(n - 1);
      assert seq(n, _ => 0) == [0] + seq(n - 1, _ => 0);
    }
  }

  /** For instance, action `a`, target `b` and magnitude 258: bars between the parts, the low octet first. */
  lemma PreimageExample()
    ensures RequestPreimage([97], [98], 258) == [97, 124, 98, 124, 2, 1] + seq(6, _ => 0)
  {
    ZeroOctets(6);
    TwoOctets(2, 1, 6);
  }

  lemma TwoOctets(low: byte, high: byte, n: nat)
    ensures LittleEndian(low + 256 * high, n + 2) == [low, high] + LittleEndian(0, n)
  {
    assert LittleEndian(low + 256 * high, n + 2) == [low] + LittleEndian(high, n + 1);
  }

  /** The pre-image of the request hash determines the action, the target, whatever it contains, and the
      magnitude, as long as action names are free of the separator. */
  lemma RequestPreimageInjective(
      action: seq<byte>, target: seq<byte>, m: nat, action': seq<byte>, target': seq<byte>, m': nat)
    requires BAR !in action && BAR !in action' && m <= U64_MAX && m' <= U64_MAX
    requires RequestPreimage(action, target, m) == RequestPreimage(action', target', m')
    ensures action == action' && target == target' && m == m'
  {
    var rest := target + [BAR] + LittleEndian(m, 8);
    var rest' := target' + [BAR] + LittleEndian(m', 8);
    assert RequestPreimage(action, target, m) == action + [BAR] + rest;
    assert RequestPreimage(action', target', m') == action' + [BAR] + rest';
    FirstSeparator(BAR, action, rest, action', rest');
    var n := |rest| - 9;
    assert rest[..n] == target && rest'[..n] == target';
    assert rest[n + 1..] == LittleEndian(m, 8) && rest'[n + 1..] == LittleEndian(m', 8);
    WordFits(m);
    WordFits(m');
    LittleEndianRoundTrip(m, 8);
    LittleEndianRoundTrip(m', 8);
  }

  /** With a separator in the action name two requests would share a pre-image. */
  lemma SeparatorInActionCollides(a: seq<byte>, b: seq<byte>, c: seq<byte>, m: nat)
    ensures RequestPreimage(a + [BAR] + b, c, m) == RequestPreimage(a, b + [BAR] + c, m)
    ensures a + [BAR] + b != a
  {
    assert (a + [BAR] + b) + [BAR] + c + [BAR] + LittleEndian(m, 8) ==
        a + [BAR] + (b + [BAR] + c) + [BAR] + LittleEndian(m, 8);
    assert |a + [BAR] + b| > |a|;
  }

  // ---- Identity --------------------------------------------------------------------------------

  /** What the loader accepts as an agent id. */
  ghost predicate AgentIdOk(id: string, unicode: char -> bool) {
    id != [] && forall i :: 0 <= i < |id| ==> Alphanumeric(id[i], unicode) || id[i] == '_' || id[i] == '-'
  }

  /** An agent id is one plain path component, free of dots and separators. */
  lemma AgentIdIsPlain(id: string, unicode: char -> bool)
    requires AgentIdOk(id, unicode)
    ensures Plain(id) && '.' !in id && '/' !in id && '\\' !in id
  {
    assert "."[0] == '.' && ".."[0] == '.';
  }

  function SigningMessage(agent: string, timestamp: string, bodyHash: string): string {
    agent + ['.'] + timestamp + ['.'] + bodyHash
  }

  lemma NumberHasNoDot(s: string)
    requires ParseUnsigned(s).Some?
    ensures '.' !in s
  {
  }

  /** The signed message determines the agent, the timestamp as written, and the body hash. */
  lemma SigningMessageInjective(
      agent: string, timestamp: string, hash: string, agent': string, timestamp': string, hash': string,
      unicode: char -> bool)
    requires AgentIdOk(agent, unicode) && AgentIdOk(agent', unicode)
    requires ParseUnsigned(timestamp).Some? && ParseUnsigned(timestamp').Some?
    requires SigningMessage(agent, timestamp, hash) == SigningMessage(agent', timestamp', hash')
    ensures agent == agent' && timestamp == timestamp' && hash == hash'
  {
    AgentIdIsPlain(agent, unicode);
    AgentIdIsPlain(agent', unicode);
    NumberHasNoDot(timestamp);
    NumberHasNoDot(timestamp');
    var rest, rest' := timestamp + ['.'] + hash, timestamp' + ['.'] + hash';
    assert SigningMessage(agent, timestamp, hash) == agent + ['.'] + rest;
    assert SigningMessage(agent', timestamp', hash') == agent' + ['.'] + rest';
    FirstSeparator('.', agent, rest, agent', rest');
    FirstSeparator('.', timestamp, hash, timestamp', hash');
  }

  const TOLERANCE: nat := 300

  datatype IdentityError =
    | MissingTimestamp | InvalidTimestamp | ExpiredTimestamp
    | MissingSignature | InvalidSignatureFormat | SignatureMismatch

  /** The primitives the model leaves open: SHA-256 in hex, HMAC-SHA256, and hex both ways. */
  datatype Crypto = Crypto(
    sha: seq<byte> -> string, hmac: (string, string) -> seq<byte>,
    decode: string -> Option<seq<byte>>, encode: seq<byte> -> string)

  function Distance(a: nat, b: nat): nat {
    if a >= b then a - b else b - a
  }

  /** `compute_signature`. */
  function Signature(c: Crypto, secret: string, agent: string, timestamp: string, body: seq<byte>): string {
    c.encode(c.hmac(secret, SigningMessage(agent, timestamp, c.sha(body))))
  }

  /** `verify_identity`, its tests in order. */
  function VerifyIdentity(
      c: Crypto, secret: string, agent: string, timestamp: Option<string>, signature: Option<string>,
      body: seq<byte>, now: nat):
    Result<(), IdentityError>
  {
    if timestamp.None? then Err(MissingTimestamp)
    else if ParseUnsigned(timestamp.value).None? then Err(InvalidTimestamp)
    else if Distance(now, ParseUnsigned(timestamp.value).value) > TOLERANCE then Err(ExpiredTimestamp)
    else if signature.None? then Err(MissingSignature)
    else if c.decode(signature.value).None? then Err(InvalidSignatureFormat)
    else if c.decode(signature.value).value != c.hmac(secret, SigningMessage(agent, timestamp.value, c.sha(body))) then
      Err(SignatureMismatch)
    else Ok(())
  }

  /** Which verdict is given, the first that applies: the timestamp is judged before the signature is looked at. */
  lemma IdentityVerdicts(
      c: Crypto, secret: string, agent: string, timestamp: Option<string>, signature: Option<string>,
      body: seq<byte>, now: nat)
    ensures var r := VerifyIdentity(c, secret, agent, timestamp, signature, body, now);
            && (r == Err(MissingTimestamp) <==> timestamp.None?)
            && (r == Err(InvalidTimestamp) <==> timestamp.Some? && ParseUnsigned(timestamp.value).None?)
            && (r == Err(ExpiredTimestamp) <==> timestamp.Some? && TooFar(timestamp.value, now))
            && (r == Err(MissingSignature) <==> timestamp.Some? && InTime(timestamp.value, now) && signature.None?)
            && (r == Err(InvalidSignatureFormat) <==>
                  timestamp.Some? && InTime(timestamp.value, now) && signature.Some? && c.decode(signature.value).None?)
            && (r == Ok(()) <==>
                  && timestamp.Some? && InTime(timestamp.value, now) && signature.Some?
                  && c.decode(signature.value) ==
                     Some(c.hmac(secret, agent + "." + timestamp.value + "." + c.sha(body))))
  {
    if timestamp.Some? {
      assert SigningMessage(agent, timestamp.value, c.sha(body)) == agent + "." + timestamp.value + "." + c.sha(body);
    }
  }

  ghost predicate InTime(timestamp: string, now: nat) {
    exists at :: ParseUnsigned(timestamp) == Some(at) && at <= now + 300 && now <= at + 300
  }

  ghost predicate TooFar(timestamp: string, now: nat) {
    exists at :: ParseUnsigned(timestamp) == Some(at) && (at > now + 300 || now > at + 300)
  }

  /** An honest signature is accepted exactly within the tolerance of its timestamp, whatever form the
      number has. */
  lemma HonestSignature(c: Crypto, secret: string, agent: string, timestamp: string, body: seq<byte>, now: nat)
    requires forall mac :: c.decode(c.encode(mac)) == Some(mac)
    ensures VerifyIdentity(c, secret, agent, Some(timestamp), Some(Signature(c, secret, agent, timestamp, body)),
                           body, now).Ok?
            <==> InTime(timestamp, now)
  {
    var mac := c.hmac(secret, SigningMessage(agent, timestamp, c.sha(body)));
    assert c.decode(c.encode(mac)) == Some(mac);
  }

  /** A signature accepted for two requests of one secret, unless the MAC itself collides, was for the same
      agent, the same timestamp and the same body hash, and the two acceptances lie within twice the
      tolerance. */
  lemma SignatureBinds(
      c: Crypto, secret: string, signature: string, unicode: char -> bool,
      agent: string, timestamp: string, body: seq<byte>, now: nat,
      agent': string, timestamp': string, body': seq<byte>, now': nat)
    requires AgentIdOk(agent, unicode) && AgentIdOk(agent', unicode)
    requires VerifyIdentity(c, secret, agent, Some(timestamp), Some(signature), body, now).Ok?
    requires VerifyIdentity(c, secret, agent', Some(timestamp'), Some(signature), body', now').Ok?
    requires var m := SigningMessage(agent, timestamp, c.sha(body));
             var m' := SigningMessage(agent', timestamp', c.sha(body'));
             c.hmac(secret, m) == c.hmac(secret, m') ==> m == m'
    ensures agent == agent' && timestamp == timestamp' && c.sha(body) == c.sha(body')
    ensures now <= now' + 600 && now' <= now + 600
  {
    SigningMessageInjective(agent, timestamp, c.sha(body), agent', timestamp', c.sha(body'), unicode);
  }
}
