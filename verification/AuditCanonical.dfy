/**
 What the audit chain hashes: the canonical string of an entry's fields, and the
 keyed digest of that string together with the previous entry's digest.
 */
module AuditCanonical {
  import opened Prelude
  import opened Text

  /** The unit separator the fields are joined with. */
  const SEPARATOR: char := '\U{1f}'

  /** A timestamp already normalised to naive UTC. */
  datatype Stamp = Stamp(year: nat, month: nat, day: nat, hour: nat, minute: nat, second: nat, micro: nat)

  /** The hashed columns of one audit entry, in hashing order. */
  datatype Fields = Fields(
    ts: Stamp,
    actor: string,
    action: string,
    correlationKey: string,
    targetService: string,
    endpoint: string,
    statusCode: int,
    ok: bool)

  // ----- rendering -----

  function Zeros(n: nat): (s: string)
    ensures |s| == n && AllDigits(s)
  {
    if n == 0 then "" else "0" + Zeros(n - 1)
  }

  function Pad(width: nat, n: nat): (s: string)
    ensures AllDigits(s)
  {
    var d := Decimal(n);
    Zeros(if |d| >= width then 0 else width - |d|) + d
  }

  lemma {:induction false} ParseAfterZeros(k: nat, s: string)
    requires AllDigits(s)
    ensures ParseDecimal(Zeros(k) + s) == ParseDecimal(s)
  {
    var z := Zeros(k) + s;
    if s != "" {
      assert z[..|z| - 1] == Zeros(k) + s[..|s| - 1];
      ParseAfterZeros(k, s[..|s| - 1]);
    } else if k > 0 {
      assert z[..|z| - 1] == Zeros(k - 1) + "" by { ZerosButLast(k); }
      ParseAfterZeros(k - 1, "");
      assert z[|z| - 1] == '0' by { ZerosButLast(k); }
    }
  }

  lemma ZerosButLast(k: nat)
    requires k > 0
    ensures Zeros(k)[..k - 1] == Zeros(k - 1) && Zeros(k)[k - 1] == '0'
  {
    if k > 1 {
      ZerosButLast(k - 1);
      assert Zeros(k)[..k - 1] == "0" + Zeros(k - 1)[..k - 2];
    }
  }

  lemma PadInjective(width: nat, m: nat, n: nat)
    requires Pad(width, m) == Pad(width, n)
    ensures m == n
  {
    ParseOfPad(width, m);
    ParseOfPad(width, n);
  }

  lemma ParseOfPad(width: nat, n: nat)
    ensures ParseDecimal(Pad(width, n)) == n
  {
    ParseOfDecimal(n);
    var d := Decimal(n);
    ParseAfterZeros(if |d| >= width then 0 else width - |d|, d);
  }

  /** `strftime("%Y-%m-%dT%H:%M:%S.%f")` */
  function CanonicalTs(t: Stamp): (s: string)
    ensures SEPARATOR !in s
  {
    Link(Pad(4, t.year), '-', Link(Pad(2, t.month), '-', Link(Pad(2, t.day), 'T', Link(Pad(2, t.hour), ':',
      Link(Pad(2, t.minute), ':', Link(Pad(2, t.second), '.', Pad(6, t.micro)))))))
  }

  function Link(a: string, c: char, b: string): (s: string)
    requires c != SEPARATOR
    ensures SEPARATOR !in a && SEPARATOR !in b ==> SEPARATOR !in s
  {
    a + [c] + b
  }

  lemma CanonicalTsInjective(t: Stamp, u: Stamp)
    requires CanonicalTs(t) == CanonicalTs(u)
    ensures t == u
  {
    var t5, u5 := Pad(2, t.second) + ['.'] + Pad(6, t.micro), Pad(2, u.second) + ['.'] + Pad(6, u.micro);
    var t4, u4 := Pad(2, t.minute) + [':'] + t5, Pad(2, u.minute) + [':'] + u5;
    var t3, u3 := Pad(2, t.hour) + [':'] + t4, Pad(2, u.hour) + [':'] + u4;
    var t2, u2 := Pad(2, t.day) + ['T'] + t3, Pad(2, u.day) + ['T'] + u3;
    var t1, u1 := Pad(2, t.month) + ['-'] + t2, Pad(2, u.month) + ['-'] + u2;
    SplitAtFirst(Pad(4, t.year), t1, Pad(4, u.year), u1, '-');
    SplitAtFirst(Pad(2, t.month), t2, Pad(2, u.month), u2, '-');
    SplitAtFirst(Pad(2, t.day), t3, Pad(2, u.day), u3, 'T');
    SplitAtFirst(Pad(2, t.hour), t4, Pad(2, u.hour), u4, ':');
    SplitAtFirst(Pad(2, t.minute), t5, Pad(2, u.minute), u5, ':');
    SplitAtFirst(Pad(2, t.second), Pad(6, t.micro), Pad(2, u.second), Pad(6, u.micro), '.');
    PadInjective(4, t.year, u.year);
    PadInjective(2, t.month, u.month);
    PadInjective(2, t.day, u.day);
    PadInjective(2, t.hour, u.hour);
    PadInjective(2, t.minute, u.minute);
    PadInjective(2, t.second, u.second);
    PadInjective(6, t.micro, u.micro);
  }

  // ----- joining -----

  function Join(parts: seq<string>): string
    requires |parts| > 0
  {
    if |parts| == 1 then parts[0] else parts[0] + [SEPARATOR] + Join(parts[1..])
  }

  function Count(s: string): nat {
    if s == "" then 0 else (if s[0] == SEPARATOR then 1 else 0) + Count(s[1..])
  }

  function CountAll(parts: seq<string>): nat {
    if parts == [] then 0 else Count(parts[0]) + CountAll(parts[1..])
  }

  lemma {:induction false} CountConcat(a: string, b: string)
    ensures Count(a + b) == Count(a) + Count(b)
  {
    if a == "" {
      assert a + b == b;
    } else {
      assert (a + b)[1..] == a[1..] + b;
      CountConcat(a[1..], b);
    }
  }

  lemma {:induction s} CountZero(s: string)
    ensures Count(s) == 0 <==> SEPARATOR !in s
  {
  }

  lemma {:induction false} CountJoin(parts: seq<string>)
    requires |parts| > 0
    ensures Count(Join(parts)) == |parts| - 1 + CountAll(parts)
  {
    if |parts| > 1 {
      CountConcat(parts[0] + [SEPARATOR], Join(parts[1..]));
      CountConcat(parts[0], [SEPARATOR]);
      assert Count([SEPARATOR]) == 1;
      CountJoin(parts[1..]);
    } else {
      assert parts[1..] == [];
    }
  }

  predicate AllFree(parts: seq<string>) {
    forall i :: 0 <= i < |parts| ==> SEPARATOR !in parts[i]
  }

  lemma {:induction false} CountAllZero(parts: seq<string>)
    ensures CountAll(parts) == 0 <==> AllFree(parts)
  {
    if parts != [] {
      CountZero(parts[0]);
      CountAllZero(parts[1..]);
      assert AllFree(parts) <==> SEPARATOR !in parts[0] && AllFree(parts[1..]) by {
        assert forall i :: 0 < i < |parts| ==> parts[i] == parts[1..][i - 1];
        assert forall i :: 0 <= i < |parts[1..]| ==> parts[1..][i] == parts[i + 1];
      }
    }
  }

  /** Joining is injective as soon as one of the two sides holds no separator. */
  lemma JoinInjective(p: seq<string>, q: seq<string>)
    requires |p| == |q| > 0 && AllFree(p) && Join(p) == Join(q)
    ensures p == q
  {
    CountJoin(p);
    CountJoin(q);
    CountAllZero(p);
    CountAllZero(q);
    JoinInjectiveFree(p, q);
  }

  lemma {:induction false} JoinInjectiveFree(p: seq<string>, q: seq<string>)
    requires |p| == |q| > 0 && AllFree(p) && AllFree(q) && Join(p) == Join(q)
    ensures p == q
  {
    if |p| > 1 {
      SplitAtFirst(p[0], Join(p[1..]), q[0], Join(q[1..]), SEPARATOR);
      JoinInjectiveFree(p[1..], q[1..]);
      assert p == [p[0]] + p[1..] && q == [q[0]] + q[1..];
    }
  }

  /** Two part lists that differ only in where a separator inside them is taken to be the boundary. */
  predicate Shifted(p: seq<string>, q: seq<string>, i: nat, a: string, b: string) {
    && |p| == |q| && i + 1 < |p|
    && p[i] == a + [SEPARATOR] + b && q[i] == a
    && q[i + 1] == b + [SEPARATOR] + p[i + 1]
    && (forall j :: 0 <= j < |p| && j != i && j != i + 1 ==> p[j] == q[j])
  }

  lemma {:induction false} JoinShift(p: seq<string>, q: seq<string>, i: nat, a: string, b: string)
    requires Shifted(p, q, i, a, b)
    ensures Join(q) == Join(p)
  {
    if i > 0 {
      JoinShift(p[1..], q[1..], i - 1, a, b);
    } else if |p| == 2 {
      assert Join(q[1..]) == q[1] && Join(p[1..]) == p[1];
      assert Join(q) == a + [SEPARATOR] + (b + [SEPARATOR] + p[1]) == Join(p);
    } else {
      assert q[1..][1..] == p[1..][1..];
      var rest := [SEPARATOR] + Join(p[1..][1..]);
      assert Join(q[1..]) == b + [SEPARATOR] + p[1] + rest;
      assert Join(p[1..]) == p[1] + rest;
      assert Join(q) == a + [SEPARATOR] + (b + [SEPARATOR] + p[1] + rest)
                     == a + [SEPARATOR] + b + [SEPARATOR] + (p[1] + rest);
    }
  }

  /** A part that holds a separator joins like the two parts around it. */
  lemma {:induction false} JoinSplitPart(parts: seq<string>, i: nat, a: string, b: string)
    requires i < |parts| && parts[i] == a + [SEPARATOR] + b
    ensures Join(parts[..i] + [a, b] + parts[i + 1..]) == Join(parts)
  {
    var q := parts[..i] + [a, b] + parts[i + 1..];
    if i > 0 {
      JoinSplitPart(parts[1..], i - 1, a, b);
      assert q[1..] == parts[1..][..i - 1] + [a, b] + parts[1..][i..];
    } else {
      assert q[1..] == [b] + parts[1..];
      assert Join(q) == a + [SEPARATOR] + Join([b] + parts[1..]);
      if |parts| > 1 {
        assert ([b] + parts[1..])[1..] == parts[1..];
        assert Join([b] + parts[1..]) == b + [SEPARATOR] + Join(parts[1..]);
        assert a + [SEPARATOR] + (b + [SEPARATOR] + Join(parts[1..])) == parts[0] + [SEPARATOR] + Join(parts[1..]);
      } else {
        assert [b] + parts[1..] == [b];
      }
    }
  }

  /** Appending a separator and a text is appending a part. */
  lemma {:induction false} JoinAppend(parts: seq<string>, last: string)
    requires |parts| > 0
    ensures Join(parts + [last]) == Join(parts) + [SEPARATOR] + last
  {
    var more := parts + [last];
    assert more[0] == parts[0];
    if |parts| > 1 {
      JoinAppend(parts[1..], last);
      assert more[1..] == parts[1..] + [last];
      assert parts[0] + [SEPARATOR] + (Join(parts[1..]) + [SEPARATOR] + last) == Join(parts) + [SEPARATOR] + last;
    } else {
      assert more[1..] == [last];
    }
  }

  // ----- the canonical string -----

  function OkText(ok: bool): string {
    if ok then "1" else "0"
  }

  function Parts(f: Fields): (p: seq<string>)
    ensures |p| == 8
  {
    [CanonicalTs(f.ts), f.actor, f.action, f.correlationKey, f.targetService, f.endpoint,
     DecimalInt(f.statusCode), OkText(f.ok)]
  }

  function Canonical(f: Fields): string {
    Join(Parts(f))
  }

  lemma PartsInjective(f: Fields, g: Fields)
    requires Parts(f) == Parts(g)
    ensures f == g
  {
    assert forall i :: 0 <= i < 8 ==> Parts(f)[i] == Parts(g)[i];
    assert Parts(f)[0] == Parts(g)[0] && Parts(f)[1] == Parts(g)[1] && Parts(f)[2] == Parts(g)[2] && Parts(f)[3] == Parts(g)[3];
    assert Parts(f)[4] == Parts(g)[4] && Parts(f)[5] == Parts(g)[5] && Parts(f)[6] == Parts(g)[6] && Parts(f)[7] == Parts(g)[7];
    CanonicalTsInjective(f.ts, g.ts);
    DecimalIntInjective(f.statusCode, g.statusCode);
  }

  /** No text field holds the separator. */
  predicate SeparatorFree(f: Fields) {
    && SEPARATOR !in f.actor
    && SEPARATOR !in f.action
    && SEPARATOR !in f.correlationKey
    && SEPARATOR !in f.targetService
    && SEPARATOR !in f.endpoint
  }

  /** No other field values share this entry's canonical string. */
  ghost predicate Unambiguous(f: Fields) {
    forall g :: Canonical(g) == Canonical(f) ==> g == f
  }

  /** The canonical string identifies the fields exactly when no text field holds the separator. */
  lemma CanonicalUnambiguousIff(f: Fields)
    ensures Unambiguous(f) <==> SeparatorFree(f)
  {
    if SeparatorFree(f) {
      forall g | Canonical(g) == Canonical(f)
        ensures g == f
      {
        CanonicalIdentifies(f, g);
      }
    } else {
      var g := Collision(f);
    }
  }

  lemma CanonicalIdentifies(f: Fields, g: Fields)
    requires SeparatorFree(f) && Canonical(g) == Canonical(f)
    ensures g == f
  {
    PartsAreFree(f);
    JoinInjective(Parts(f), Parts(g));
    PartsInjective(f, g);
  }

  lemma PartsAreFree(f: Fields)
    requires SeparatorFree(f)
    ensures forall i :: 0 <= i < |Parts(f)| ==> SEPARATOR !in Parts(f)[i]
  {
    assert SEPARATOR !in DecimalInt(f.statusCode);
    assert SEPARATOR !in CanonicalTs(f.ts);
  }

  /** `f` with text columns `i` and `i + 1` replaced. */
  function WithTexts(f: Fields, i: nat, x: string, y: string): (g: Fields)
    requires 1 <= i <= 4
    ensures Parts(g)[i] == x && Parts(g)[i + 1] == y
    ensures forall j :: 0 <= j < 8 && j != i && j != i + 1 ==> Parts(g)[j] == Parts(f)[j]
  {
    if i == 1 then f.(actor := x, action := y)
    else if i == 2 then f.(action := x, correlationKey := y)
    else if i == 3 then f.(correlationKey := x, targetService := y)
    else f.(targetService := x, endpoint := y)
  }

  /** Different fields with the same canonical string, whenever a text field holds the separator. */
  lemma Collision(f: Fields) returns (g: Fields)
    requires !SeparatorFree(f)
    ensures g != f && Canonical(g) == Canonical(f)
  {
    var p := Parts(f);
    assert p[1] == f.actor && p[2] == f.action && p[3] == f.correlationKey && p[4] == f.targetService && p[5] == f.endpoint;
    if SEPARATOR in f.endpoint {
      var (a, b) := Partition(f.endpoint, SEPARATOR).value;
      g := CollisionAt(f, 4, p[4] + [SEPARATOR] + a, b, p[4], a, true);
    } else {
      var i :| 1 <= i <= 4 && SEPARATOR in p[i];
      var (a, b) := Partition(p[i], SEPARATOR).value;
      g := CollisionAt(f, i, a, b + [SEPARATOR] + p[i + 1], a, b, false);
    }
  }

  lemma CollisionAt(f: Fields, i: nat, x: string, y: string, a: string, b: string, back: bool) returns (g: Fields)
    requires 1 <= i <= 4
    requires var p := Parts(f);
      if back then x == a + [SEPARATOR] + b && p[i] == a && p[i + 1] == b + [SEPARATOR] + y
      else p[i] == a + [SEPARATOR] + b && x == a && y == b + [SEPARATOR] + p[i + 1]
    ensures g != f && Canonical(g) == Canonical(f)
  {
    g := WithTexts(f, i, x, y);
    var p, q := Parts(f), Parts(g);
    assert |p[i]| != |q[i]|;
    if back {
      JoinShift(q, p, i, a, b);
    } else {
      JoinShift(p, q, i, a, b);
    }
  }

  // ----- the keyed digest -----

  /**
   How entries are digested: the string rendered from their fields, and HMAC-SHA256
   under the store's secret, in hex. The store uses `Keyed(sign)`; what is said about
   chains holds for any rendering.
   */
  datatype Digest = Digest(render: Fields -> string, sign: string -> string)

  function Keyed(sign: string -> string): Digest {
    Digest(Canonical, sign)
  }

  /** An idealised keyed digest: injective, never empty, and made of characters other than the separator. */
  ghost predicate Ideal(d: Digest) {
    && (forall m, n :: d.sign(m) == d.sign(n) ==> m == n)
    && (forall m :: d.sign(m) != "" && SEPARATOR !in d.sign(m))
  }

  function OrEmpty(prev: Option<string>): string {
    match prev case None => "" case Some(h) => h
  }

  /** `compute_entry_hash` */
  function EntryHash(d: Digest, f: Fields, prev: Option<string>): string {
    d.sign(d.render(f) + [SEPARATOR] + OrEmpty(prev))
  }

  /** Genesis, or a digest: the only values the store ever writes into `prev_hash`. */
  ghost predicate IsLink(d: Digest, prev: Option<string>) {
    prev.Some? ==> exists m :: prev.value == d.sign(m)
  }

  /** Equal digests mean the same rendering chained to the same predecessor, whatever the fields hold. */
  lemma EntryHashInjective(d: Digest, f: Fields, p: Option<string>, g: Fields, q: Option<string>)
    requires Ideal(d) && IsLink(d, p) && IsLink(d, q)
    requires EntryHash(d, f, p) == EntryHash(d, g, q)
    ensures d.render(f) == d.render(g) && p == q
  {
    SplitAtLast(d.render(f), OrEmpty(p), d.render(g), OrEmpty(q), SEPARATOR);
  }

  /** What an entry digest is taken of, as one list of parts: the link is the ninth. */
  function HashedParts(f: Fields, prev: Option<string>): (p: seq<string>)
    ensures |p| == 9
  {
    Parts(f) + [OrEmpty(prev)]
  }

  lemma HashIsOfParts(sign: string -> string, f: Fields, prev: Option<string>)
    ensures EntryHash(Keyed(sign), f, prev) == sign(Join(HashedParts(f, prev)))
  {
    JoinAppend(Parts(f), OrEmpty(prev));
  }

  /** An entry with separator-free text and link shares its digest with no other fields and no other link, whatever characters those hold. */
  lemma FreeEntryIsIdentified(sign: string -> string, f: Fields, p: Option<string>, g: Fields, q: Option<string>)
    requires Ideal(Keyed(sign)) && SeparatorFree(f) && SEPARATOR !in OrEmpty(p)
    ensures EntryHash(Keyed(sign), f, p) == EntryHash(Keyed(sign), g, q) <==> f == g && OrEmpty(p) == OrEmpty(q)
  {
    HashIsOfParts(sign, f, p);
    HashIsOfParts(sign, g, q);
    if EntryHash(Keyed(sign), f, p) == EntryHash(Keyed(sign), g, q) {
      IdealKeyed(sign, Join(HashedParts(f, p)), Join(HashedParts(g, q)));
      PartsAreFree(f);
      JoinInjective(HashedParts(f, p), HashedParts(g, q));
      assert Parts(f) == HashedParts(f, p)[..8] && Parts(g) == HashedParts(g, q)[..8];
      assert HashedParts(f, p)[8] == OrEmpty(p) && HashedParts(g, q)[8] == OrEmpty(q);
      PartsInjective(f, g);
    }
  }

  lemma IdealKeyed(sign: string -> string, m: string, n: string)
    requires Ideal(Keyed(sign)) && sign(m) == sign(n)
    ensures m == n
  {
    assert Keyed(sign).sign(m) == Keyed(sign).sign(n);
  }

  /**
   With a separator in a text field, an edit can move columns and the link at once and keep
   the digest: the actor splits into actor and action, every later column moves up by one, and
   what is left over goes into the link.
   */
  lemma LinkCanAbsorbColumns(sign: string -> string, f: Fields, a: string, b: string, code: int, prev: Option<string>)
    requires f.actor == a + [SEPARATOR] + b && f.endpoint == DecimalInt(code) && f.statusCode == 1
    ensures var g := Fields(f.ts, a, b, f.action, f.correlationKey, f.targetService, code, true);
      var link := Some(OkText(f.ok) + [SEPARATOR] + OrEmpty(prev));
      g != f && EntryHash(Keyed(sign), g, link) == EntryHash(Keyed(sign), f, prev)
  {
    var g := Fields(f.ts, a, b, f.action, f.correlationKey, f.targetService, code, true);
    var link := Some(OkText(f.ok) + [SEPARATOR] + OrEmpty(prev));
    var p, q := HashedParts(f, prev), HashedParts(g, link);
    HashIsOfParts(sign, f, prev);
    HashIsOfParts(sign, g, link);
    assert |f.actor| > |g.actor|;
    JoinSplitPart(p, 1, a, b);
    JoinSplitPart(q, 8, OkText(f.ok), OrEmpty(prev));
    OneIsOne();
    assert p[..1] + [a, b] + p[2..] == q[..8] + [OkText(f.ok), OrEmpty(prev)] + q[9..];
  }

  lemma OneIsOne()
    ensures DecimalInt(1) == "1"
  {
    assert DigitChar(1) == '1';
  }

  // ----- an ideal digest exists -----

  /** Stands in for a digest with no collisions: every character but the separator is doubled. */
  function Escaped(m: string): (s: string)
    ensures s != "" && SEPARATOR !in s
  {
    if m == "" then "."
    else (if m[0] == SEPARATOR then "ab" else [m[0], m[0]]) + Escaped(m[1..])
  }

  lemma {:induction false} EscapedInjective(m: string, n: string)
    requires Escaped(m) == Escaped(n)
    ensures m == n
  {
    EscapedLength(m);
    EscapedLength(n);
    if m != "" {
      var s := Escaped(m);
      assert s[0] == (if m[0] == SEPARATOR then 'a' else m[0]) && s[1] == (if m[0] == SEPARATOR then 'b' else m[0]);
      assert s[0] == (if n[0] == SEPARATOR then 'a' else n[0]) && s[1] == (if n[0] == SEPARATOR then 'b' else n[0]);
      assert s[2..] == Escaped(m[1..]) == Escaped(n[1..]);
      EscapedInjective(m[1..], n[1..]);
      assert m == [m[0]] + m[1..] && n == [n[0]] + n[1..];
    }
  }

  lemma EscapedLength(m: string)
    ensures |Escaped(m)| == 2 * |m| + 1
  {
  }

  /** `Ideal` can be met, so nothing proved from it is vacuous. */
  lemma IdealIsSatisfiable()
    ensures Ideal(Keyed(Escaped))
  {
    forall m, n | Escaped(m) == Escaped(n)
      ensures m == n
    {
      EscapedInjective(m, n);
    }
  }
}
