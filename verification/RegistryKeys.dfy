/**
 The string keys of the gateway's round-robin counters: a plane's own counter is kept under
 "planeType/planeID", the counter of one CR under "planeType/planeID/" + crKey, in one map.
 */
module RegistryKeys {

  predicate SlashFree(s: string) {
    '/' !in s
  }

  function PlaneIdentifier(planeType: string, planeID: string): string {
    planeType + "/" + planeID
  }

  /** A plane identifier: exactly one slash. */
  ghost predicate IsPlane(p: string) {
    exists k :: 0 <= k < |p| && OnlySlash(p, k)
  }

  ghost predicate OnlySlash(p: string, k: nat)
    requires k < |p|
  {
    p[k] == '/' && forall j :: 0 <= j < |p| && j != k ==> p[j] != '/'
  }

  function CounterKey(plane: string, cr: string): string {
    plane + "/" + cr
  }

  predicate HasPrefix(key: string, prefix: string) {
    |key| > |prefix| && key[..|prefix|] == prefix
  }

  lemma PlaneIdentifierIsPlane(planeType: string, planeID: string)
    requires SlashFree(planeType) && SlashFree(planeID)
    ensures IsPlane(PlaneIdentifier(planeType, planeID))
  {
    var p, k := PlaneIdentifier(planeType, planeID), |planeType|;
    forall j | 0 <= j < |p| && j != k ensures p[j] != '/' {
      if j < k { assert p[j] == planeType[j]; } else { assert p[j] == planeID[j - k - 1]; }
    }
    assert OnlySlash(p, k);
  }

  /** Two slashes: no counter key of a CR is a plane identifier. */
  lemma CounterKeyNotPlane(p: string, cr: string)
    requires IsPlane(p)
    ensures !IsPlane(CounterKey(p, cr))
  {
    var key := CounterKey(p, cr);
    var k :| 0 <= k < |p| && OnlySlash(p, k);
    assert key[k] == '/' && key[|p|] == '/';
  }

  lemma SamePlane(p: string, q: string, key: string)
    requires IsPlane(p) && IsPlane(q)
    requires |key| > |p| && key[..|p|] == p && key[|p|] == '/'
    requires |key| > |q| && key[..|q|] == q && key[|q|] == '/'
    ensures p == q
  {
  }

  /** The concatenated keys are injective. */
  lemma CounterKeyInjective(p: string, c: string, q: string, d: string)
    requires IsPlane(p) && IsPlane(q)
    ensures CounterKey(p, c) == CounterKey(q, d) <==> p == q && c == d
  {
    var x, y := CounterKey(p, c), CounterKey(q, d);
    assert x[..|p|] == p && x[|p|] == '/' && x[|p| + 1..] == c;
    assert y[..|q|] == q && y[|q|] == '/' && y[|q| + 1..] == d;
    if x == y { SamePlane(p, q, x); }
  }

  /** The prefix a plane's clean-up looks for is on exactly that plane's CR keys. */
  lemma PrefixIsPlane(p: string, q: string, cr: string)
    requires IsPlane(p) && IsPlane(q) && cr != ""
    ensures HasPrefix(CounterKey(q, cr), p + "/") <==> p == q
  {
    var key := CounterKey(q, cr);
    assert key[..|q|] == q && key[|q|] == '/';
    if p == q {
      assert key[..|p| + 1] == p + "/";
    }
    if HasPrefix(key, p + "/") {
      assert (p + "/")[..|p|] == p && key[..|p|] == key[..|p| + 1][..|p|];
      assert key[|p|] == (p + "/")[|p|];
      SamePlane(p, q, key);
    }
  }

  /** No plane's own key is under another plane's prefix. */
  lemma PlaneHasNoPlanePrefix(p: string, q: string)
    requires IsPlane(p) && IsPlane(q)
    ensures !HasPrefix(q, p + "/")
  {
    var k :| 0 <= k < |p| && OnlySlash(p, k);
    var m :| 0 <= m < |q| && OnlySlash(q, m);
    assert (p + "/")[k] == '/' && (p + "/")[|p|] == '/';
    assert forall j :: 0 <= j <= |p| && |q| > |p| ==> q[..|p| + 1][j] == q[j];
  }
}
