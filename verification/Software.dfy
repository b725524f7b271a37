/** Normalisation and deduplication of installed software. */
module Software {
  import opened Common
  import opened Strings
  import opened Dedup
  import opened Canonical
  import opened InputOrder

  datatype Installation = Installation(
    name: string, displayName: string, version: string, publisher: string, architecture: string,
    installDate: Option<int>, installLocation: string, uninstallString: string,
    quietUninstallString: string, registryKey: string, source: string, scope: string,
    evidence: string, firstSeen: int, lastSeen: int)

  function NormalizeInstallation(item: Installation): Installation {
    var name, displayName := Clean(item.name), Clean(item.displayName);
    var displayName' := if displayName == "" then name else displayName;
    item.(name := if name == "" then displayName' else name,
          displayName := displayName',
          version := Clean(item.version), publisher := Clean(item.publisher),
          architecture := Clean(item.architecture), installLocation := Clean(item.installLocation),
          uninstallString := Clean(item.uninstallString),
          quietUninstallString := Clean(item.quietUninstallString),
          registryKey := Clean(item.registryKey), source := Clean(item.source),
          scope := Clean(item.scope), evidence := Clean(item.evidence))
  }

  /** What identifies a product: the four normalised fields. */
  function Identity(item: Installation): seq<string> {
    var n := NormalizeInstallation(item);
    [Normalize(n.name), Normalize(n.publisher), Normalize(n.version), Normalize(n.architecture)]
  }

  /** `digest` is SHA-256 in hexadecimal, as an arbitrary function. */
  function Fingerprint(digest: string -> string, item: Installation): string {
    digest(Join('|', Identity(item)))
  }

  function SourceRank(source: string): int {
    if source == "REGISTRY_MACHINE_64" then 3
    else if source == "REGISTRY_MACHINE_32" then 2
    else if source == "REGISTRY_USER" then 1
    else 0
  }

  /** Records are identified by fingerprint and compared by source rank and location length. */
  function RulesFor(digest: string -> string): Rules<Installation> {
    Rules((x: Installation) => Fingerprint(digest, x),
          (x: Installation) => SourceRank(x.source),
          (x: Installation) => |x.installLocation|)
  }

  lemma NormalizeInstallationIdempotent(item: Installation)
    ensures NormalizeInstallation(NormalizeInstallation(item)) == NormalizeInstallation(item)
  {
    CleanIdempotent(item.name);
    CleanIdempotent(item.displayName);
    CleanIdempotent(item.version);
    CleanIdempotent(item.publisher);
    CleanIdempotent(item.architecture);
    CleanIdempotent(item.installLocation);
    CleanIdempotent(item.uninstallString);
    CleanIdempotent(item.quietUninstallString);
    CleanIdempotent(item.registryKey);
    CleanIdempotent(item.source);
    CleanIdempotent(item.scope);
    CleanIdempotent(item.evidence);
  }

  lemma FingerprintOfNormalized(digest: string -> string, item: Installation)
    ensures Fingerprint(digest, NormalizeInstallation(item)) == Fingerprint(digest, item)
  {
    NormalizeInstallationIdempotent(item);
  }

  /** Normalisation keeps the words of every text field, gives a record without one of its two names the
      other one, and leaves the three dates alone. */
  lemma NormalizationKeepsWords(item: Installation)
    ensures var n := NormalizeInstallation(item);
            && Fields(n.displayName) == Fields(if Fields(item.displayName) == [] then item.name else item.displayName)
            && Fields(n.name) == Fields(if Fields(item.name) == [] then item.displayName else item.name)
            && Fields(n.version) == Fields(item.version) && Fields(n.publisher) == Fields(item.publisher)
            && Fields(n.architecture) == Fields(item.architecture)
            && Fields(n.installLocation) == Fields(item.installLocation)
            && Fields(n.uninstallString) == Fields(item.uninstallString)
            && Fields(n.quietUninstallString) == Fields(item.quietUninstallString)
            && Fields(n.registryKey) == Fields(item.registryKey) && Fields(n.source) == Fields(item.source)
            && Fields(n.scope) == Fields(item.scope) && Fields(n.evidence) == Fields(item.evidence)
            && n.installDate == item.installDate && n.firstSeen == item.firstSeen && n.lastSeen == item.lastSeen
  {
    hide Strings.Fields, Clean;
    forall s ensures Fields(Clean(s)) == Fields(s) && (Clean(s) == "" <==> Fields(s) == []) {
      CleanKeepsWords(s);
      CleanEmptyIff(s);
    }
  }

  lemma CleanEmptyIff(s: string)
    ensures Clean(s) == "" <==> Fields(s) == []
  {
    CleanKeepsWords(s);
    if Fields(s) != [] { JoinedEnds(Fields(s)); }
  }

  // ---------------------------------------------------------------- identity

  /** Two records are of one product: their normalised names, publishers, versions and architectures
      agree, whatever the letter case. */
  predicate SameProduct(a: Installation, b: Installation) {
    var x, y := NormalizeInstallation(a), NormalizeInstallation(b);
    && Normalize(x.name) == Normalize(y.name)
    && Normalize(x.publisher) == Normalize(y.publisher)
    && Normalize(x.version) == Normalize(y.version)
    && Normalize(x.architecture) == Normalize(y.architecture)
  }

  /** No '|' in the four fields of the normalised record. */
  predicate Unambiguous(a: Installation) {
    var x := NormalizeInstallation(a);
    '|' !in x.name && '|' !in x.publisher && '|' !in x.version && '|' !in x.architecture
  }

  lemma UnambiguousIsSeparated(a: Installation)
    requires Unambiguous(a)
    ensures Separated('|', Identity(a))
  {
    var x := NormalizeInstallation(a);
    NormalizeInstallationIdempotent(a);
    hide NormalizeInstallation, Clean, Lower;
    AlreadyClean(a);
    LowerKeepsSeparator(x.name);
    LowerKeepsSeparator(x.publisher);
    LowerKeepsSeparator(x.version);
    LowerKeepsSeparator(x.architecture);
  }

  lemma AlreadyClean(a: Installation)
    ensures var x := NormalizeInstallation(a);
            && Clean(x.name) == x.name && Clean(x.publisher) == x.publisher
            && Clean(x.version) == x.version && Clean(x.architecture) == x.architecture
  {
    CleanIdempotent(a.name);
    CleanIdempotent(a.displayName);
    CleanIdempotent(a.publisher);
    CleanIdempotent(a.version);
    CleanIdempotent(a.architecture);
  }

  /** Without '|' in the fields of one of them, two records share a fingerprint exactly when they are
      of one product, if SHA-256 has no collision among identities. */
  lemma SameFingerprintIff(digest: string -> string, a: Installation, b: Installation)
    requires Unambiguous(a)
    requires forall x, y :: digest(x) == digest(y) ==> x == y
    ensures Fingerprint(digest, a) == Fingerprint(digest, b) <==> SameProduct(a, b)
  {
    UnambiguousIsSeparated(a);
    JoinInjective('|', Identity(a), Identity(b));
    IdentityIsProduct(a, b);
  }

  lemma IdentityIsProduct(a: Installation, b: Installation)
    ensures Identity(a) == Identity(b) <==> SameProduct(a, b)
  {
    hide NormalizeInstallation, Strings.Normalize;
    var u, v := Identity(a), Identity(b);
    if u == v { assert u[0] == v[0] && u[1] == v[1] && u[2] == v[2] && u[3] == v[3]; }
  }

  function Named(name: string, publisher: string): Installation {
    Installation(name, "", "", publisher, "", None, "", "", "", "", "", "", "", 0, 0)
  }

  lemma CleanWord(w: string)
    requires IsWord(w)
    ensures Clean(w) == w
  {
    FieldsJoin([w]);
  }

  lemma LowerWord(w: string)
    requires forall i :: 0 <= i < |w| ==> LowerChar(w[i]) == w[i]
    ensures Lower(w) == w
  {
  }

  /** A word in lower case is its own normal form. */
  ghost predicate IsLowerWord(w: string) {
    IsWord(w) && forall i :: 0 <= i < |w| ==> LowerChar(w[i]) == w[i]
  }

  lemma IdentityOf(name: string, publisher: string)
    requires IsLowerWord(name) && IsLowerWord(publisher)
    ensures Identity(Named(name, publisher)) == [name, publisher, "", ""]
  {
    CleanWord(name);
    CleanWord(publisher);
    LowerWord(name);
    LowerWord(publisher);
    assert Clean("") == "";
  }

  lemma FingerprintIs(digest: string -> string, item: Installation, identity: seq<string>)
    requires Identity(item) == identity
    ensures Fingerprint(digest, item) == digest(Join('|', identity))
  {
  }

  /** A '|' inside a name can make two different products share a fingerprint, whatever the hash:
      "x|y" by "z" and "x" by "y|z". */
  lemma SeparatorMergesProducts(digest: string -> string, x: string, y: string, z: string)
    requires IsLowerWord(x) && IsLowerWord(y) && IsLowerWord(z)
    ensures var a, b := Named(x + ['|'] + y, z), Named(x, y + ['|'] + z);
            Identity(a) != Identity(b) && Fingerprint(digest, a) == Fingerprint(digest, b)
  {
    hide Identity, Strings.Join, Named;
    var xy, yz := x + ['|'] + y, y + ['|'] + z;
    IdentityOf(xy, z);
    IdentityOf(x, yz);
    FingerprintIs(digest, Named(xy, z), [xy, z, "", ""]);
    FingerprintIs(digest, Named(x, yz), [x, yz, "", ""]);
    JoinRegroup('|', [], x, y, z, ["", ""]);
    assert [xy, z, "", ""] == [] + [x + ['|'] + y, z] + ["", ""];
    assert [x, yz, "", ""] == [] + [x, y + ['|'] + z] + ["", ""];
    assert |[xy, z, "", ""][0]| != |[x, yz, "", ""][0]|;
  }

  // ---------------------------------------------------------------- a class without a best record

  function Seen(source: string, location: string): Installation {
    Installation("app", "app", "", "", "", None, location, "", "", "", source, "", "", 0, 0)
  }

  /** The record kept can be worse on both criteria than one seen earlier. */
  lemma WinnerCanBeWorse(digest: string -> string)
    ensures exists a, b, c ::
              var r := RulesFor(digest);
              && r.fingerprint(a) == r.fingerprint(b) == r.fingerprint(c)
              && r.rank(Winner(r, [a, b, c])) < r.rank(a) && r.detail(Winner(r, [a, b, c])) < r.detail(a)
  {
    var r := RulesFor(digest);
    var a, b, c := Seen("REGISTRY_MACHINE_64", "12"), Seen("", "123"), Seen("REGISTRY_USER", "1");
    assert |"REGISTRY_USER"| == 13 && |"REGISTRY_MACHINE_64"| == |"REGISTRY_MACHINE_32"| == 19;
    assert r.rank(a) == 3 && r.rank(b) == 0 && r.rank(c) == 1;
    WinnerExtends(r, [a], b);
    WinnerExtends(r, [a, b], c);
    assert [a] + [b] == [a, b] && [a, b] + [c] == [a, b, c];
    assert Identity(a) == Identity(b) == Identity(c);
  }

  // ---------------------------------------------------------------- the pipeline

  const SORT_NAME: Installation -> string := (x: Installation) => Normalize(x.name)

  predicate HasName(item: Installation) { item.name != "" }

  /** The records that enter the map: normalised, and named. */
  function Records(items: seq<Installation>): seq<Installation> {
    Admit(NormalizeInstallation, HasName, items)
  }

  /** The list the pipeline makes of `items`, for some enumeration order of its map. */
  ghost predicate IsResult(digest: string -> string, items: seq<Installation>, s: seq<Installation>) {
    IsCanonical(RulesFor(digest), SORT_NAME, Records(items), s)
  }

  /** Builds the map record by record, lists its values in whatever order the map yields them,
      and sorts the list in place. */
  method NormalizeAndDeduplicate(digest: string -> string, items: seq<Installation>) returns (result: seq<Installation>)
    ensures IsResult(digest, items, result)
  {
    var byFingerprint: map<string, Installation> := map[];
    for i := 0 to |items|
      invariant byFingerprint == Kept(RulesFor(digest), Records(items[..i]))
    {
      KeptEnters(RulesFor(digest), NormalizeInstallation, HasName, items, i);
      byFingerprint := EnterItem(digest, byFingerprint, items[i]);
    }
    assert items[..|items|] == items;
    var listed := ListValues(RulesFor(digest), Records(items), byFingerprint);
    result := SortListed(RulesFor(digest), SORT_NAME, Records(items), listed);
  }

  /** One round of the loop: normalises an item and enters it into the map, unless it has no
      name or the record there is preferred. */
  method EnterItem(digest: string -> string, kept: map<string, Installation>, raw: Installation)
    returns (kept': map<string, Installation>)
    ensures kept' == Enter(RulesFor(digest), NormalizeInstallation, HasName, kept, raw)
  {
    kept' := kept;
    var item := NormalizeInstallation(raw);
    if item.name == "" { return; }
    var fingerprint := Fingerprint(digest, item);
    if fingerprint in kept' {
      var existing := kept'[fingerprint];
      if SourceRank(item.source) > SourceRank(existing.source) || |item.installLocation| > |existing.installLocation| {
        kept' := kept'[fingerprint := item];
      }
      return;
    }
    kept' := kept'[fingerprint := item];
  }

  /** The list does not depend on the enumeration order of the map. */
  lemma ResultIsUnique(digest: string -> string, items: seq<Installation>, s: seq<Installation>, t: seq<Installation>)
    requires IsResult(digest, items, s) && IsResult(digest, items, t)
    ensures s == t
  {
    CanonicalIsUnique(RulesFor(digest), SORT_NAME, Records(items), s, t);
  }

  lemma AllIdempotent()
    ensures forall x :: NormalizeInstallation(NormalizeInstallation(x)) == NormalizeInstallation(x)
  {
    forall x ensures NormalizeInstallation(NormalizeInstallation(x)) == NormalizeInstallation(x) {
      NormalizeInstallationIdempotent(x);
    }
  }

  /** Applying the pipeline to its own result returns that result. */
  lemma DeduplicateTwice(digest: string -> string, items: seq<Installation>, s: seq<Installation>, t: seq<Installation>)
    requires IsResult(digest, items, s) && IsResult(digest, s, t)
    ensures t == s
  {
    AllIdempotent();
    PipelineIsIdempotent(RulesFor(digest), SORT_NAME, NormalizeInstallation, HasName, items, s, t);
  }

  /** Every input with a name has its fingerprint exactly once in the output, on the winner among
      the records with that fingerprint; every output record is a normalised input record. */
  lemma EveryProductOnce(digest: string -> string, items: seq<Installation>, s: seq<Installation>, k: nat)
    requires IsResult(digest, items, s)
    requires k < |items| && NormalizeInstallation(items[k]).name != ""
    ensures var r, f := RulesFor(digest), Fingerprint(digest, items[k]);
            && ClassOf(r, Records(items), f) != []
            && exists i: nat :: OnlyAt(r, s, f, i) && s[i] == Winner(r, ClassOf(r, Records(items), f))
    ensures forall y :: y in s ==> y.name != "" && exists m :: 0 <= m < |items| && NormalizeInstallation(items[m]) == y
  {
    FingerprintOfNormalized(digest, items[k]);
    EveryNamedItemOnce(RulesFor(digest), SORT_NAME, NormalizeInstallation, HasName, items, s, k);
  }

  /** The list is sorted by name whatever the letter case, and by fingerprint where names agree. */
  lemma ResultIsSorted(digest: string -> string, items: seq<Installation>, s: seq<Installation>, i: nat, j: nat)
    requires IsResult(digest, items, s) && i < j < |s|
    ensures || Less(Normalize(s[i].name), Normalize(s[j].name))
            || (Normalize(s[i].name) == Normalize(s[j].name)
                && Less(Fingerprint(digest, s[i]), Fingerprint(digest, s[j])))
  {
    var r := RulesFor(digest);
    KeptSeparated(r, SORT_NAME, Records(items), s);
    assert r.fingerprint(s[i]) != r.fingerprint(s[j]);
    LessTrichotomy(SORT_NAME(s[i]), SORT_NAME(s[j]));
    LessTrichotomy(r.fingerprint(s[i]), r.fingerprint(s[j]));
  }

  // ---------------------------------------------------------------- lists of two records

  lemma TwoRecords(a: Installation, b: Installation)
    requires HasName(NormalizeInstallation(a)) && HasName(NormalizeInstallation(b))
    ensures Records([a, b]) == [NormalizeInstallation(a), NormalizeInstallation(b)]
  {
    hide NormalizeInstallation, HasName;
    assert [a, b][..1] == [a] && [a][..0] == [];
    assert Records([]) == [];
    assert Records([a]) == [NormalizeInstallation(a)];
  }

  lemma TwoOfClass(r: Rules<Installation>, x: Installation, y: Installation, f: string)
    requires r.fingerprint(x) == f && r.fingerprint(y) == f
    ensures ClassOf(r, [x, y], f) == [x, y]
  {
    assert [x, y][..1] == [x] && [x][..0] == [];
    assert ClassOf(r, [x], f) == [x];
  }

  lemma TwoKept(digest: string -> string, a: Installation, b: Installation, s: seq<Installation>)
    requires HasName(NormalizeInstallation(a)) && HasName(NormalizeInstallation(b))
    requires IsResult(digest, [a, b], s)
    ensures var x, y, r := NormalizeInstallation(a), NormalizeInstallation(b), RulesFor(digest);
            if Fingerprint(digest, a) != Fingerprint(digest, b) then |s| == 2 && x in s && y in s
            else s == [if Beats(r, y, x) then y else x]
  {
    FingerprintOfNormalized(digest, a);
    FingerprintOfNormalized(digest, b);
    TwoRecords(a, b);
    hide NormalizeInstallation, Fingerprint, HasName, IsCanonical, Beats;
    ListOfTwo(RulesFor(digest), SORT_NAME, NormalizeInstallation(a), NormalizeInstallation(b), s);
  }

  /** Records of different products are both kept. */
  lemma DifferentProductsKept(digest: string -> string, a: Installation, b: Installation, s: seq<Installation>)
    requires HasName(NormalizeInstallation(a)) && HasName(NormalizeInstallation(b)) && IsResult(digest, [a, b], s)
    requires Unambiguous(a) && !SameProduct(a, b) && (forall x, y :: digest(x) == digest(y) ==> x == y)
    ensures |s| == 2 && NormalizeInstallation(a) in s && NormalizeInstallation(b) in s
  {
    SameFingerprintIff(digest, a, b);
    TwoKept(digest, a, b, s);
  }

  function Built(architecture: string): Installation {
    Installation("App", "App", "1.0", "Acme", architecture, None, "", "", "", "", "", "", "", 0, 0)
  }

  /** One version of one program installed for two architectures is two products. */
  lemma ArchitecturesAreKept(digest: string -> string, s: seq<Installation>)
    requires IsResult(digest, [Built("x64"), Built("x86")], s)
    requires forall x, y :: digest(x) == digest(y) ==> x == y
    ensures |s| == 2
  {
    hide NormalizeInstallation, Normalize, Clean, Lower, IsResult, SameProduct, Unambiguous, HasName;
    var x, y := "x64", "x86";
    assert x[1] != y[1];
    BuiltIsNormal(x);
    BuiltIsNormal(y);
    BuiltDiffer(x, y);
    DifferentProductsKept(digest, Built(x), Built(y), s);
  }

  lemma BuiltDiffer(x: string, y: string)
    requires NormalizeInstallation(Built(x)) == Built(x) && NormalizeInstallation(Built(y)) == Built(y)
    requires Normalize(x) == x && Normalize(y) == y && x != y
    ensures !SameProduct(Built(x), Built(y))
  {
    hide NormalizeInstallation, Normalize;
  }

  lemma BuiltIsNormal(architecture: string)
    requires IsLowerWord(architecture) && '|' !in architecture
    ensures NormalizeInstallation(Built(architecture)) == Built(architecture)
    ensures Normalize(architecture) == architecture && Unambiguous(Built(architecture))
    ensures HasName(Built(architecture))
  {
    hide Clean, Lower;
    assert Clean("") == "" by { CleanEmptyIff(""); }
    CleanWord("App");
    CleanWord("1.0");
    CleanWord("Acme");
    CleanWord(architecture);
    LowerWord(architecture);
  }

  /** The 64-bit machine source comes before the 32-bit one, that before the user's, and that before
      every other. */
  predicate Preferred(x: string, y: string) {
    || (x == "REGISTRY_MACHINE_64" && y != "REGISTRY_MACHINE_64")
    || (x == "REGISTRY_MACHINE_32" && y != "REGISTRY_MACHINE_64" && y != "REGISTRY_MACHINE_32")
    || (x == "REGISTRY_USER" && y != "REGISTRY_MACHINE_64" && y != "REGISTRY_MACHINE_32" && y != "REGISTRY_USER")
  }

  lemma RankIsPreference(x: string, y: string)
    ensures SourceRank(x) > SourceRank(y) <==> Preferred(x, y)
  {
    assert |"REGISTRY_USER"| == 13 && |"REGISTRY_MACHINE_64"| == |"REGISTRY_MACHINE_32"| == 19;
    assert "REGISTRY_MACHINE_64"[17] == '6' && "REGISTRY_MACHINE_32"[17] == '3';
  }

  /** Of two records of one product the later one is kept exactly if its source is preferred or its
      location is longer. */
  lemma LaterIsKeptIff(digest: string -> string, a: Installation, b: Installation, s: seq<Installation>)
    requires HasName(NormalizeInstallation(a)) && HasName(NormalizeInstallation(b)) && IsResult(digest, [a, b], s)
    requires SameProduct(a, b)
    ensures var x, y := NormalizeInstallation(a), NormalizeInstallation(b);
            s == [if Preferred(y.source, x.source) || |y.installLocation| > |x.installLocation| then y else x]
  {
    var x, y := NormalizeInstallation(a), NormalizeInstallation(b);
    IdentityIsProduct(a, b);
    hide NormalizeInstallation, SameProduct, HasName, IsResult, Preferred, SourceRank;
    TwoKept(digest, a, b, s);
    RankIsPreference(y.source, x.source);
  }

  // ---------------------------------------------------------------- the order of the input

  /** No other order of the collected items gives another list. */
  ghost predicate ListIgnoresOrder(digest: string -> string, items: seq<Installation>) {
    forall items', s, t ::
      && multiset(items') == multiset(items)
      && IsResult(digest, items, s)
      && IsResult(digest, items', t)
      ==> s == t
  }

  /** The list ignores the order of the input if and only if the records of every fingerprint have
      a best one, and no second best one that differs. */
  lemma ListIgnoresOrderIff(digest: string -> string, items: seq<Installation>)
    ensures ListIgnoresOrder(digest, items) <==> OneBestEach(RulesFor(digest), Records(items))
  {
    var r := RulesFor(digest);
    OrderFreeIff(r, SORT_NAME, NormalizeInstallation, HasName, items);
    hide RulesFor, NormalizeInstallation, HasName, Dedup.Admit, IsCanonical, OneBestEach;
    if ListIgnoresOrder(digest, items) {
      forall items', s, t |
        && multiset(items') == multiset(items)
        && IsCanonical(r, SORT_NAME, Admit(NormalizeInstallation, HasName, items), s)
        && IsCanonical(r, SORT_NAME, Admit(NormalizeInstallation, HasName, items'), t)
        ensures s == t
      {
        assert IsResult(digest, items, s) && IsResult(digest, items', t);
      }
    }
  }

  /** Two different records of one product with equal scores: the one seen first is kept. */
  lemma TiedRecordsDependOnOrder(digest: string -> string, a: Installation, b: Installation)
    requires HasName(NormalizeInstallation(a)) && HasName(NormalizeInstallation(b))
    requires Fingerprint(digest, a) == Fingerprint(digest, b)
    requires SameScore(RulesFor(digest), NormalizeInstallation(a), NormalizeInstallation(b))
    requires NormalizeInstallation(a) != NormalizeInstallation(b)
    ensures !ListIgnoresOrder(digest, [a, b])
  {
    var x, y := NormalizeInstallation(a), NormalizeInstallation(b);
    var r, f := RulesFor(digest), Fingerprint(digest, a);
    FingerprintOfNormalized(digest, a);
    FingerprintOfNormalized(digest, b);
    hide NormalizeInstallation, Fingerprint, ListIgnoresOrder, HasName;
    TwoRecords(a, b);
    TwoOfClass(r, x, y, f);
    assert IsBest(r, [x, y], x) && IsBest(r, [x, y], y);
    assert x in [x, y] && y in [x, y];
    assert !HasOneBest(r, [x, y]);
    ListIgnoresOrderIff(digest, [a, b]);
  }
}
