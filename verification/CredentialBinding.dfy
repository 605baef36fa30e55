/** The associated data both encryption layers bind a credential to, as concrete strings. */
module CredentialBinding {
  import opened Prelude
  import opened Text

  const KEK_PREFIX := "cfactory/git-credential/kek/"
  const DEK_PREFIX := "cfactory/git-credential/dek/"

  /** Length-prefixed tenant and connection; the bare tenant for a record from before connections existed. */
  function Scope(tenant: string, connection: Option<nat>): string {
    match connection
    case None => tenant
    case Some(c) => Decimal(|tenant|) + [':'] + (tenant + ['/'] + Decimal(c))
  }

  /** What a wrapped data key is bound to: its scope and the version of the key that wraps it. */
  function KekAad(tenant: string, keyVersion: string, connection: Option<nat>): string {
    KEK_PREFIX + (Scope(tenant, connection) + ['/'] + keyVersion)
  }

  /** What a sealed credential is bound to: its scope alone, so a key rotation need not touch it. */
  function DekAad(tenant: string, connection: Option<nat>): string {
    DEK_PREFIX + Scope(tenant, connection)
  }

  lemma SamePrefix(p: string, x: string, y: string)
    requires p + x == p + y
    ensures x == y
  {
    assert x == (p + x)[|p|..] == (p + y)[|p|..] == y;
  }

  lemma LengthPrefixed(t: string, x: string, u: string, y: string)
    requires Decimal(|t|) + [':'] + (t + ['/'] + x) == Decimal(|u|) + [':'] + (u + ['/'] + y)
    ensures t == u && x == y
  {
    SplitAtFirst(Decimal(|t|), t + ['/'] + x, Decimal(|u|), u + ['/'] + y, ':');
    DecimalInjective(|t|, |u|);
    assert t == (t + ['/'] + x)[..|t|] == (u + ['/'] + y)[..|u|] == u;
    assert x == (t + ['/'] + x)[|t| + 1..] == (u + ['/'] + y)[|u| + 1..] == y;
  }

  /** The current data-key binding determines tenant and connection, whatever characters the tenant holds. */
  lemma DekAadInjective(t: string, c: nat, u: string, d: nat)
    ensures DekAad(t, Some(c)) == DekAad(u, Some(d)) <==> t == u && c == d
  {
    if DekAad(t, Some(c)) == DekAad(u, Some(d)) {
      SamePrefix(DEK_PREFIX, Scope(t, Some(c)), Scope(u, Some(d)));
      LengthPrefixed(t, Decimal(c), u, Decimal(d));
      DecimalInjective(c, d);
    }
  }

  /** The current wrapping binding determines tenant, connection and key version. */
  lemma KekAadInjective(t: string, k: string, c: nat, u: string, l: string, d: nat)
    ensures KekAad(t, k, Some(c)) == KekAad(u, l, Some(d)) <==> t == u && c == d && k == l
  {
    if KekAad(t, k, Some(c)) == KekAad(u, l, Some(d)) {
      SamePrefix(KEK_PREFIX, Scope(t, Some(c)) + ['/'] + k, Scope(u, Some(d)) + ['/'] + l);
      Regroup(t, c, k);
      Regroup(u, d, l);
      LengthPrefixed(t, Decimal(c) + ['/'] + k, u, Decimal(d) + ['/'] + l);
      SplitAtFirst(Decimal(c), k, Decimal(d), l, '/');
      DecimalInjective(c, d);
    }
  }

  lemma Regroup(t: string, c: nat, k: string)
    ensures Scope(t, Some(c)) + ['/'] + k == Decimal(|t|) + [':'] + (t + ['/'] + (Decimal(c) + ['/'] + k))
  {
    Regrouped(Decimal(|t|), t, Decimal(c), k);
  }

  lemma Regrouped(n: string, t: string, c: string, k: string)
    ensures n + [':'] + (t + ['/'] + c) + ['/'] + k == n + [':'] + (t + ['/'] + (c + ['/'] + k))
  {
  }

  /** The two layers never share a binding. */
  lemma LayersSeparate(t: string, k: string, c: Option<nat>, u: string, d: Option<nat>)
    ensures KekAad(t, k, c) != DekAad(u, d)
  {
    assert KekAad(t, k, c)[24] == 'k' && DekAad(u, d)[24] == 'd';
  }

  /** A legacy binding coincides with a current one exactly when the legacy tenant is spelled like the other's length-prefixed scope. */
  lemma LegacyMeetsCurrentIff(legacy: string, t: string, c: nat)
    ensures DekAad(legacy, None) == DekAad(t, Some(c)) <==> legacy == Scope(t, Some(c))
    ensures forall k :: KekAad(legacy, k, None) == KekAad(t, k, Some(c)) <==> legacy == Scope(t, Some(c))
  {
    if DekAad(legacy, None) == DekAad(t, Some(c)) {
      SamePrefix(DEK_PREFIX, legacy, Scope(t, Some(c)));
    }
    forall k | KekAad(legacy, k, None) == KekAad(t, k, Some(c))
      ensures legacy == Scope(t, Some(c))
    {
      SameFraming(KEK_PREFIX, legacy, Scope(t, Some(c)), ['/'], k);
    }
  }

  lemma SameFraming(p: string, x: string, y: string, z: string, k: string)
    requires p + (x + z + k) == p + (y + z + k)
    ensures x == y
  {
    SamePrefix(p, x + z + k, y + z + k);
    SameSuffix(x + z, y + z, k);
    SameSuffix(x, y, z);
  }

  /** Such tenants exist: the legacy tenant `4:acme/7` reads as connection 7 of `acme`. */
  lemma LegacyCanMeetCurrent()
    ensures DekAad("4:acme/7", None) == DekAad("acme", Some(7))
  {
    assert Decimal(4) == "4" && Decimal(7) == "7";
    assert Scope("acme", Some(7)) == "4" + [':'] + ("acme" + ['/'] + "7") == "4:acme/7";
  }

  /** Among legacy bindings the tenant is determined by the record's own key version. */
  lemma LegacyTenantDetermined(t: string, u: string, k: string)
    ensures KekAad(t, k, None) == KekAad(u, k, None) <==> t == u
    ensures DekAad(t, None) == DekAad(u, None) <==> t == u
  {
    if KekAad(t, k, None) == KekAad(u, k, None) {
      var x, y := t + ['/'] + k, u + ['/'] + k;
      SamePrefix(KEK_PREFIX, x, y);
      assert |t| == |x| - 1 - |k| == |u|;
      assert t == x[..|t|] == y[..|u|] == u;
    }
    if DekAad(t, None) == DekAad(u, None) {
      SamePrefix(DEK_PREFIX, t, u);
    }
  }
}
