/** From the canonical policy of a rules file to the bytes that are published: ToPolicyDocument
    and EncodeAndVerify of rules/src/semantic.cpp. */
module CompiledPolicy {
  import opened Wrappers
  import opened Sorting
  import opened DecimalText
  import opened Separated
  import opened ByteLayout
  import opened Validation
  import opened PolicyFormat
  import opened PolicyDecoder
  import opened PolicyEncoder
  import Semantic

  /** A user number in text; a negative one is no user. */
  function UserText(user: int): string { if user < 0 then "-" + Decimal(-user) else Decimal(user) }

  function ToDenial(path: string): Mount { Mount(Deny, path, "", 0, 0) }

  function ToRedirect(pair: (string, string)): Mount {
    Mount(Redirect, pair.0, pair.1, (1 + Slashes(pair.0)) % 0x1_0000, 0)
  }

  function OrEverything(items: seq<string>): seq<string> { if items == [] then ["*"] else items }

  function ToApp(c: Semantic.CanonicalApp): App {
    App(c.package, false, c.filePicker, OrEverything(Map(UserText, c.users)), OrEverything(c.processes),
        Map(ToDenial, c.deny) + Map(ToRedirect, c.redirects), [])
  }

  function ToDocument(apps: seq<Semantic.CanonicalApp>, legacy: bool): Policy {
    Policy(SCHEMA_VERSION, true, legacy, Map(ToApp, apps))
  }

  /** The bytes a document compiles to. */
  function Compiled(apps: seq<Semantic.AppRules>, legacy: bool): Option<string> {
    Encoded(ToDocument(Semantic.CanonicalPolicy(apps), legacy))
  }

  lemma RepeatsAreRefused(apps: seq<Semantic.CanonicalApp>, legacy: bool)
    requires !Semantic.PackagesDiffer(apps)
    ensures Encoded(ToDocument(apps, legacy)).None?
  {
    hide ToApp, SortBy;
    var p := ToDocument(apps, legacy);
    var i: nat, j: nat :| i < j < |apps| && apps[i].package == apps[j].package;
    SameName(apps[i]);
    SameName(apps[j]);
    assert p.apps[i].package == p.apps[j].package;
  }

  lemma SameName(c: Semantic.CanonicalApp)
    ensures ToApp(c).package == c.package
  {
  }

  lemma PackagesDifferAlike(a: seq<Semantic.CanonicalApp>, b: seq<Semantic.CanonicalApp>)
    requires multiset(a) == multiset(b) && Semantic.PackagesDiffer(a)
    ensures Semantic.PackagesDiffer(b)
  {
    var f := (c: Semantic.CanonicalApp) => c.package;
    MapMultiset(f, a, b);
    var x, y := Map(f, a), Map(f, b);
    forall i, j | 0 <= i < j < |x| ensures x[i] != x[j] { assert a[i].package != a[j].package; }
    NoRepeatsIsOrderless(x, y);
    forall i, j | 0 <= i < j < |b| ensures b[i].package != b[j].package { assert y[i] != y[j]; }
  }

  /** MAIN RESULT. Documents that differ in the order of their applications, denials, redirects,
      users or processes, or in how their rules are numbered, compile to the same bytes. */
  lemma BytesIgnoreOrder(a: seq<Semantic.AppRules>, b: seq<Semantic.AppRules>, order: seq<Semantic.AppRules>, legacy: bool)
    requires Semantic.OrderedOtherwise(a, b, order)
    ensures Compiled(a, legacy) == Compiled(b, legacy)
  {
    var x, y := Semantic.CanonicalPolicy(a), Semantic.CanonicalPolicy(b);
    hide Semantic.CanonicalPolicy, ToDocument, Encoded;
    Semantic.PolicyPermuted(a, b, order);
    if Semantic.PackagesDiffer(y) {
      Semantic.PolicyIgnoresOrder(a, b, order);
    } else {
      RepeatsAreRefused(y, legacy);
      if Semantic.PackagesDiffer(x) {
        PackagesDifferAlike(x, y);
      } else {
        RepeatsAreRefused(x, legacy);
      }
    }
  }

  // ---------------------------------------------------------------- verification

  lemma UserReadsBack(user: int)
    requires IsUser(UserText(user))
    ensures user >= 0 && Value(UserText(user)) == user
  {
    NegativeIsNoUser(user);
    if user >= 0 {
      DecimalReadsBack(user);
    }
  }

  lemma NegativeIsNoUser(user: int)
    ensures user < 0 ==> !IsUser(UserText(user))
  {
    assert user < 0 ==> '-' in UserText(user);
  }

  lemma UserItem(s: string)
    requires IsUser(s)
    ensures s != "" && NulFree(s) && Free(s, ',')
  {
  }

  /** The users of an accepted application can be stored. */
  lemma UsersStorable(users: seq<int>)
    requires NormalUsers(OrEverything(Map(UserText, users))).Some?
    ensures ItemsStorable(OrEverything(Map(UserText, users))) && DistinctUsers(OrEverything(Map(UserText, users)))
  {
    var items := Map(UserText, users);
    hide Decimal, Value, SortBy, IsUser;
    if users != [] {
      forall u | u in users ensures UserText(u) != "*" { NoUserIsStar(u); }
      assert items[0] != "*";
      assert forall i :: i in items ==> IsUser(i);
      forall i | i in items ensures i != "" && NulFree(i) && Free(i, ',') { UserItem(i); }
      forall u, v | u in items && v in items && Value(u) == Value(v) ensures u == v {
        MapMembers(UserText, users, u);
        MapMembers(UserText, users, v);
        var m :| m in users && UserText(m) == u;
        var n :| n in users && UserText(n) == v;
        UserReadsBack(m);
        UserReadsBack(n);
      }
    }
  }

  lemma NoUserIsStar(u: int)
    ensures UserText(u) != "*"
  {
    if u >= 0 {
      assert Decimal(u)[|Decimal(u)| - 1] == Digit(u % 10);
    }
  }

  lemma AppIsStorable(c: Semantic.CanonicalApp)
    requires NulFree(c.package) && (c.processes == [] || ItemsStorable(c.processes)) && Validated(ToApp(c)).Some?
    ensures AppStorable(ToApp(c))
  {
    UsersStorable(c.users);
    hide SortBy, Decimal, DistinctUsers, NormalMounts, NormalEvents;
    var a := ToApp(c);
    forall m | m in a.mounts ensures m.flags == 0 { }
  }

  lemma {:induction false} EachValidates(apps: seq<App>, i: nat)
    requires ValidatedAll(apps).Some? && i < |apps|
    ensures Validated(apps[i]).Some?
    decreases |apps|
  {
    hide Validated, Executable;
    if i < |apps| - 1 {
      EachValidates(apps[..|apps| - 1], i);
    }
  }

  /** MAIN RESULT. What a document compiles to passes the compiler's own verification: it decodes
      to the compiled applications and to their content generation. */
  lemma CompiledIsVerified(apps: seq<Semantic.AppRules>, legacy: bool)
    requires Compiled(apps, legacy).Some?
    requires forall c :: c in Semantic.CanonicalPolicy(apps) ==>
               NulFree(c.package) && (c.processes == [] || ItemsStorable(c.processes))
    ensures var p := ToDocument(Semantic.CanonicalPolicy(apps), legacy);
      && Canonicalized(p).Some?
      && var v := Canonicalized(p).value;
         Decoded(Compiled(apps, legacy).value)
           == Some(Document(legacy, SortBy(HashAtMost, v), ContentGeneration(v, legacy)))
  {
    var canonical := Semantic.CanonicalPolicy(apps);
    var p := ToDocument(canonical, legacy);
    EncodedFile(p);
    hide Semantic.CanonicalPolicy, Encoded, ToApp, Validated, AppStorable, SortBy, ContentGeneration, Decoded, ItemsStorable;
    forall a | a in p.apps ensures AppStorable(a) {
      var i: nat :| i < |p.apps| && p.apps[i] == a;
      EachValidates(p.apps, i);
      AppIsStorable(canonical[i]);
    }
    EncodeThenDecode(p);
  }
}
