/** The journal's theorems assume a codec that decodes what it encodes. Here is one, so that the
    assumption can be met. */
module CodecExists {
  import opened Prelude
  import opened Contracts

  /** Self-delimiting text. */
  function Frame(s: string): string {
    if s == [] then "." else "c" + [s[0]] + Frame(s[1..])
  }

  lemma {:induction false} FrameInjective(a: string, b: string, x: string, y: string)
    requires Frame(a) + x == Frame(b) + y
    ensures a == b && x == y
  {
    var u, v := Frame(a) + x, Frame(b) + y;
    if a == [] || b == [] {
      assert u[0] == v[0];
      assert x == u[1..] && y == v[1..];
    } else {
      assert u[1] == a[0] && v[1] == b[0];
      assert u[2..] == Frame(a[1..]) + x && v[2..] == Frame(b[1..]) + y;
      FrameInjective(a[1..], b[1..], x, y);
      assert a == [a[0]] + a[1..] && b == [b[0]] + b[1..];
    }
  }

  function FrameAll(fields: seq<string>): string {
    if fields == [] then "." else "f" + Frame(fields[0]) + FrameAll(fields[1..])
  }

  lemma {:induction false} FrameAllInjective(a: seq<string>, b: seq<string>)
    requires FrameAll(a) == FrameAll(b)
    ensures a == b
  {
    assert FrameAll(a)[0] == FrameAll(b)[0];
    if a != [] && b != [] {
      assert FrameAll(a)[1..] == Frame(a[0]) + FrameAll(a[1..]);
      assert FrameAll(b)[1..] == Frame(b[0]) + FrameAll(b[1..]);
      FrameInjective(a[0], b[0], FrameAll(a[1..]), FrameAll(b[1..]));
      FrameAllInjective(a[1..], b[1..]);
      assert a == [a[0]] + a[1..] && b == [b[0]] + b[1..];
    }
  }

  function Flag(b: bool): string {
    if b then "t" else "f"
  }

  function Fields(c: Contract): seq<string> {
    match c
    case Evidence(id, run, rev, body) => ["e", id, run, rev, body]
    case Observation(id, run, rev, coherence, d, h, body) => ["o", id, run, rev, coherence, Flag(d), Flag(h), body]
    case CoordinatorFence(id, run, rev, token) => ["f", id, run, rev, token]
    case CapabilityGrant(id, run, rev, body) => ["g", id, run, rev, body]
    case SubjectAttempt(id, run, rev, body) => ["a", id, run, rev, body]
    case IdempotencyKey(key, body) => ["i", key, body]
    case Claim(id, run, rev, key, body) => ["c", id, run, rev, key, body]
    case Decision(id, run, rev, key, body) => ["d", id, run, rev, key, body]
    case Quarantine(id, run, rev, body) => ["q", id, run, rev, body]
    case NonAuthority(tag, run, rev, body) => ["n", tag, run, rev, body]
  }

  lemma FieldsInjective(a: Contract, b: Contract)
    requires Fields(a) == Fields(b)
    ensures a == b
  {
    assert Fields(a)[0][0] == Fields(b)[0][0];
    var f, g := Fields(a), Fields(b);
    assert f[1] == g[1] && f[2] == g[2];
    if |f| > 3 { assert f[3] == g[3] && f[4] == g[4]; }
    if |f| > 5 { assert f[5] == g[5]; }
    if |f| > 6 { assert f[6] == g[6] && f[7] == g[7]; }
  }

  function Encode(c: Contract): string {
    FrameAll(Fields(c))
  }

  ghost function Parse(s: string): Option<Contract> {
    if exists c :: Encode(c) == s then
      var c :| Encode(c) == s;
      Some(c)
    else None
  }

  lemma LawfulCodecExists() returns (k: Codec)
    ensures k.Lawful()
  {
    k := Codec(c => Encode(c), s => Parse(s), _ => GENESIS, _ => GENESIS, (_, _, _) => GENESIS);
    forall c ensures k.fromJson(k.toJson(c)) == Some(c) {
      var d := Parse(Encode(c)).value;
      FrameAllInjective(Fields(c), Fields(d));
      FieldsInjective(c, d);
    }
  }
}
