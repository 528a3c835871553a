/**
 * The redirect addresses that the handlers of src/server/admin.rs give to the pop-up flow: the one a
 * browser names when it starts, and the one the callback rebuilds from the configuration.
 */
module Redirect {
  import opened Base

  const ADMIN: bytes := Ascii("/admin/oauth/")
  const CALLBACK: bytes := Ascii("/callback")
  const PLACEHOLDER: bytes := Ascii("{provider}")
  const SLASH: bytes := [47]

  /** Where the needle occurs last. */
  function LastOccurrence(hay: bytes, needle: bytes, end: nat): (i: Option<nat>)
    requires end <= |hay|
    ensures i.Some? ==> i.value <= end && OccursAt(hay, needle, i.value)
    ensures forall j :: (if i.Some? then i.value else -1) < j <= end ==> !OccursAt(hay, needle, j)
  {
    if OccursAt(hay, needle, end) then Some(end)
    else if end == 0 then None
    else LastOccurrence(hay, needle, end - 1)
  }

  /** All occurrences of a non-empty text replaced, from left to right. */
  function Replaced(s: bytes, what: bytes, with_: bytes): bytes
    requires what != []
    decreases |s|
  {
    if s == [] then []
    else if what <= s then with_ + Replaced(s[|what|..], what, with_)
    else [s[0]] + Replaced(s[1..], what, with_)
  }

  function TrimSlashes(s: bytes): (t: bytes)
    ensures t <= s && (t != [] ==> t[|t| - 1] != 47)
  {
    if s != [] && s[|s| - 1] == 47 then TrimSlashes(s[..|s| - 1]) else s
  }

  predicate EndsWith(s: bytes, end: bytes) {
    |end| <= |s| && s[|s| - |end|..] == end
  }

  function Path(provider: bytes): bytes {
    ADMIN + provider + CALLBACK
  }

  /** src/server/admin.rs, rebuild_redirect_uri. */
  function Rebuild(configured: bytes, provider: bytes): bytes {
    if configured == [] then Path(provider)
    else if Contains(configured, PLACEHOLDER) then Replaced(configured, PLACEHOLDER, provider)
    else
      var at := LastOccurrence(configured, ADMIN, |configured|);
      if at.Some? then configured[..at.value] + Path(provider)
      else if EndsWith(configured, CALLBACK) || EndsWith(configured, SLASH)
      then TrimSlashes(configured) + Path(provider)
      else configured + Path(provider)
  }

  /** What the sign-in button names: the origin the browser sees. */
  function FromBrowser(origin: bytes, provider: bytes): bytes {
    origin + Path(provider)
  }

  /** The address that a configuration without a placeholder puts before the path. */
  function Prefix(configured: bytes): bytes {
    var at := LastOccurrence(configured, ADMIN, |configured|);
    if at.Some? then configured[..at.value]
    else if EndsWith(configured, CALLBACK) || EndsWith(configured, SLASH) then TrimSlashes(configured)
    else configured
  }

  lemma SameTail(a: bytes, b: bytes, path: bytes)
    ensures a + path == b + path <==> a == b
  {
    if a + path == b + path {
      assert |a| == |b|;
      assert a == (a + path)[..|a|] && b == (b + path)[..|b|];
    }
  }

  lemma EmptyPrefix()
    ensures Prefix([]) == []
  {
    assert |ADMIN| > 0 && |CALLBACK| > 0;
  }

  /**
   * The callback names the address the browser started with exactly when the configured prefix is the
   * browser's origin; with nothing configured it never does, for a browser that has an origin.
   */
  lemma CallbackNamesTheSame(configured: bytes, origin: bytes, provider: bytes)
    requires !Contains(configured, PLACEHOLDER)
    ensures Rebuild(configured, provider) == Prefix(configured) + Path(provider)
    ensures Rebuild(configured, provider) == FromBrowser(origin, provider) <==> Prefix(configured) == origin
    ensures configured == [] ==> (Rebuild(configured, provider) == FromBrowser(origin, provider) <==> origin == [])
  {
    EmptyPrefix();
    SameTail(Prefix(configured), origin, Path(provider));
    assert [] + Path(provider) == Path(provider);
  }

  lemma {:induction false} NothingReplaced(s: bytes, what: bytes, with: bytes)
    requires what != [] && what[0] !in s
    ensures Replaced(s, what, with) == s
  {
    if s != [] {
      assert !(what <= s) by { assert s[0] in s; }
      NothingReplaced(s[1..], what, with);
    }
  }

  lemma ReplacedCons(x: byte, t: bytes, what: bytes, with: bytes)
    requires what != [] && what[0] != x
    ensures Replaced([x] + t, what, with) == [x] + Replaced(t, what, with)
  {
    assert ([x] + t)[1..] == t;
  }

  lemma ReplacedFirst(what: bytes, b: bytes, with: bytes)
    requires what != []
    ensures Replaced(what + b, what, with) == with + Replaced(b, what, with)
  {
    assert (what + b)[|what|..] == b;
  }

  lemma {:induction false} ReplacedOnce(a: bytes, what: bytes, b: bytes, with: bytes)
    requires what != [] && what[0] !in a && what[0] !in b
    ensures Replaced(a + what + b, what, with) == a + with + b
  {
    if a == [] {
      assert a + what + b == what + b && a + with + b == with + b;
      ReplacedFirst(what, b, with);
      NothingReplaced(b, what, with);
    } else {
      var t := a[1..] + what + b;
      assert a[0] in a;
      ReplacedOnce(a[1..], what, b, with);
      ReplacedCons(a[0], t, what, with);
      assert a + what + b == [a[0]] + t;
      assert a + with + b == [a[0]] + (a[1..] + with + b);
    }
  }

  lemma FourParts<T>(a: seq<T>, b: seq<T>, c: seq<T>, d: seq<T>)
    ensures a + (b + c + d) == a + b + c + d
  {
  }

  /** A configuration in the placeholder form that has the browser's origin gives every provider its own address. */
  lemma PlaceholderAgrees(origin: bytes, provider: bytes)
    requires '{' as int !in origin
    ensures Rebuild(FromBrowser(origin, PLACEHOLDER), provider) == FromBrowser(origin, provider)
  {
    var a := origin + ADMIN;
    var configured := FromBrowser(origin, PLACEHOLDER);
    FourParts(origin, ADMIN, PLACEHOLDER, CALLBACK);
    assert configured[|a|..|a| + |PLACEHOLDER|] == PLACEHOLDER;
    assert OccursAt(configured, PLACEHOLDER, |a|);
    NoBraces();
    ReplacedOnce(a, PLACEHOLDER, CALLBACK, provider);
    FourParts(origin, ADMIN, provider, CALLBACK);
  }

  lemma NoBraces()
    ensures PLACEHOLDER != [] && PLACEHOLDER[0] == '{' as int
    ensures '{' as int !in ADMIN && '{' as int !in CALLBACK
  {
  }

  lemma {:induction false} ReplacedByItself(s: bytes, what: bytes)
    requires what != []
    ensures Replaced(s, what, what) == s
    decreases |s|
  {
    if s != [] {
      if what <= s {
        ReplacedByItself(s[|what|..], what);
        assert s == what + s[|what|..];
      } else {
        ReplacedByItself(s[1..], what);
        assert s == [s[0]] + s[1..];
      }
    }
  }

  ghost predicate SameForAll(configured: bytes, origin: bytes) {
    forall provider :: Rebuild(configured, provider) == FromBrowser(origin, provider)
  }

  /** A configuration in the placeholder form agrees for all providers exactly when it is the button's own form. */
  lemma PlaceholderExactly(configured: bytes, origin: bytes)
    requires Contains(configured, PLACEHOLDER) && '{' as int !in origin
    ensures SameForAll(configured, origin) <==> configured == FromBrowser(origin, PLACEHOLDER)
  {
    NoBraces();
    if SameForAll(configured, origin) {
      ReplacedByItself(configured, PLACEHOLDER);
      EmptyHoldsNothing(configured);
      assert Rebuild(configured, PLACEHOLDER) == FromBrowser(origin, PLACEHOLDER);
    }
    if configured == FromBrowser(origin, PLACEHOLDER) {
      forall provider
        ensures Rebuild(configured, provider) == FromBrowser(origin, provider)
      {
        PlaceholderAgrees(origin, provider);
      }
    }
  }

  lemma EmptyHoldsNothing(configured: bytes)
    requires Contains(configured, PLACEHOLDER)
    ensures configured != []
  {
    NoBraces();
  }

  /**
   * When all providers' callbacks name the address that the button named: without a placeholder exactly
   * when the configured prefix is the origin, with one exactly when the configuration is the button's
   * address with the placeholder for the provider.
   */
  lemma AgreeExactly(configured: bytes, origin: bytes)
    requires '{' as int !in origin
    ensures SameForAll(configured, origin)
            <==> if Contains(configured, PLACEHOLDER) then configured == FromBrowser(origin, PLACEHOLDER)
                 else Prefix(configured) == origin
  {
    if Contains(configured, PLACEHOLDER) {
      PlaceholderExactly(configured, origin);
    } else {
      forall provider
        ensures Rebuild(configured, provider) == FromBrowser(origin, provider) <==> Prefix(configured) == origin
      {
        CallbackNamesTheSame(configured, origin, provider);
      }
      if SameForAll(configured, origin) {
        assert Rebuild(configured, []) == FromBrowser(origin, []);
      }
    }
  }

  // ----- the shapes of the configuration -----

  /** The address of a provider's callback under an origin. */
  function Address(origin: bytes, provider: bytes): bytes {
    origin + Ascii("/admin/oauth/") + provider + Ascii("/callback")
  }

  lemma AddressIs(origin: bytes, provider: bytes)
    ensures FromBrowser(origin, provider) == origin + Path(provider) == Address(origin, provider)
  {
    FourParts(origin, ADMIN, provider, CALLBACK);
  }

  /** An origin as it is usually written: with no trace of the path, and no slash at its end. */
  ghost predicate BareOrigin(origin: bytes) {
    && origin != [] && origin[|origin| - 1] != 47 && '{' as int !in origin
    && !Contains(origin, Ascii("/admin/oauth/")) && !EndsWith(origin, Ascii("/callback"))
  }

  lemma NoPlaceholder(s: bytes)
    requires '{' as int !in s
    ensures !Contains(s, PLACEHOLDER)
  {
    NoBraces();
    forall i | 0 <= i <= |s|
      ensures !OccursAt(s, PLACEHOLDER, i)
    {
      assert i + |PLACEHOLDER| <= |s| ==> s[i..i + |PLACEHOLDER|][0] == s[i];
    }
  }

  lemma NotFound(s: bytes, needle: bytes)
    requires !Contains(s, needle)
    ensures LastOccurrence(s, needle, |s|).None?
  {
  }

  /** A bare origin, and nothing at all, are completed with the path. */
  lemma OriginCompleted(origin: bytes, provider: bytes)
    requires origin == [] || BareOrigin(origin)
    ensures Rebuild(origin, provider) == Address(origin, provider)
  {
    AddressIs(origin, provider);
    if origin == [] {
      assert [] + Path(provider) == Path(provider);
    } else {
      NoPlaceholder(origin);
      NotFound(origin, ADMIN);
    }
  }

  /** So is an origin with slashes after it. */
  lemma SlashesDropped(origin: bytes, provider: bytes)
    requires BareOrigin(origin) && !Contains(origin + SLASH, Ascii("/admin/oauth/"))
    ensures Rebuild(origin + SLASH, provider) == Address(origin, provider)
  {
    AddressIs(origin, provider);
    NoPlaceholder(origin + SLASH);
    NotFound(origin + SLASH, ADMIN);
    var configured := origin + SLASH;
    assert configured[|configured| - |SLASH|..] == SLASH;
    assert configured[..|configured| - 1] == origin;
    assert TrimSlashes(configured) == TrimSlashes(origin) == origin;
  }

  lemma LastIs(hay: bytes, needle: bytes, at: nat)
    requires at <= |hay| && OccursAt(hay, needle, at)
    requires forall i :: at < i <= |hay| ==> !OccursAt(hay, needle, i)
    ensures LastOccurrence(hay, needle, |hay|) == Some(at)
  {
  }

  lemma SwappedAt(configured: bytes, origin: bytes, provider: bytes)
    requires configured != [] && !Contains(configured, PLACEHOLDER) && origin <= configured
    requires LastOccurrence(configured, ADMIN, |configured|) == Some(|origin|)
    ensures Rebuild(configured, provider) == origin + Path(provider)
  {
    assert configured[..|origin|] == origin;
  }

  /** In an address written for one provider the provider is put in the place of the other. */
  lemma ProviderSwapped(origin: bytes, written: bytes, provider: bytes)
    requires '{' as int !in origin && '{' as int !in written
    requires forall i :: |origin| < i <= |Address(origin, written)| ==>
               !OccursAt(Address(origin, written), Ascii("/admin/oauth/"), i)
    ensures Rebuild(Address(origin, written), provider) == Address(origin, provider)
  {
    AddressIs(origin, provider);
    NoBraces();
    NoPlaceholder(Address(origin, written));
    AdminAt(origin, written + CALLBACK);
    Assoc(origin + ADMIN, written, CALLBACK);
    LastIs(Address(origin, written), ADMIN, |origin|);
    SwappedAt(Address(origin, written), origin, provider);
  }

  lemma AdminAt(origin: bytes, rest: bytes)
    ensures OccursAt(origin + ADMIN + rest, ADMIN, |origin|) && origin <= origin + ADMIN + rest
  {
    assert (origin + ADMIN + rest)[|origin|..|origin| + |ADMIN|] == ADMIN;
  }

  /** In an address with the placeholder every provider is put in its place. */
  lemma PlaceholderFilled(origin: bytes, provider: bytes)
    requires '{' as int !in origin
    ensures Rebuild(Address(origin, Ascii("{provider}")), provider) == Address(origin, provider)
  {
    AddressIs(origin, PLACEHOLDER);
    AddressIs(origin, provider);
    PlaceholderAgrees(origin, provider);
  }
}
