/**
 * `MiscMixin`'s license gating: whether a package is free, and which licenses an install
 * queue still needs the user to accept.
 *
 * Per-repository license whitelists come from `SystemSettings[...]['repositories']
 * ['license_whitelist']`; the licenses of a package (`retrieveLicensedataKeys`), the licenses
 * accepted in `SystemSettings['license_accept']`, and those the installed repository records
 * as accepted (`isLicenseAccepted`) are inputs.
 */
module Licenses {
  import opened Seqs
  import opened MatchMask

  /** The license facts the gating reads. */
  datatype LicenseData = LicenseData(
    whitelist: map<string, seq<string>>,
    accepted: set<string>,
    installedAccepted: string -> bool,
    keysOf: PackageMatch -> seq<string>)

  /** `repo_sys_data['license_whitelist'].get(repo)` is neither missing nor empty. */
  predicate HasWhitelist(whitelist: map<string, seq<string>>, repo: string) {
    repo in whitelist && whitelist[repo] != []
  }

  function NotListed(wl: seq<string>): string -> bool {
    k => k !in wl
  }

  function NotAccepted(accepted: set<string>): string -> bool {
    k => k !in accepted
  }

  /**
   * `is_entropy_package_free`: a package of a repository with no whitelist is free; otherwise
   * it is free exactly when every one of its license keys is whitelisted.
   */
  function IsEntropyPackageFree(whitelist: map<string, seq<string>>, repo: string, keys: seq<string>): (free: bool)
    ensures free <==> !HasWhitelist(whitelist, repo) || forall k :: k in keys ==> k in whitelist[repo]
  {
    if !HasWhitelist(whitelist, repo) then true
    else
      FilterMembers(keys, NotListed(whitelist[repo]));
      assert Filter(keys, NotListed(whitelist[repo])) != [] ==>
        Filter(keys, NotListed(whitelist[repo]))[0] in Filter(keys, NotListed(whitelist[repo]));
      Filter(keys, NotListed(whitelist[repo])) == []
  }

  /**
   * Whether the queued match `m` makes `get_licenses_to_accept` ask for license `key`: its
   * repository has a whitelist, the package carries the license, and the license is neither
   * accepted in the settings, nor whitelisted, nor accepted in the installed repository.
   */
  predicate Needs(d: LicenseData, m: PackageMatch, key: string) {
    HasWhitelist(d.whitelist, m.repo) && key in d.keysOf(m) && key !in d.accepted &&
    key !in d.whitelist[m.repo] && !d.installedAccepted(key)
  }

  /** The matches of the queue that need `key`. */
  function NeedingMatches(q: seq<PackageMatch>, d: LicenseData, key: string): set<PackageMatch> {
    set m | m in q && Needs(d, m, key)
  }

  /** `licenses.get(key, set())`. */
  function Get(lic: map<string, set<PackageMatch>>, key: string): set<PackageMatch> {
    if key in lic then lic[key] else {}
  }

  /** The inner loop of `get_licenses_to_accept` over the (not yet accepted) keys of `m`. */
  function AddMatchKeys(lic: map<string, set<PackageMatch>>, m: PackageMatch, keys: seq<string>,
                        d: LicenseData): map<string, set<PackageMatch>>
    requires HasWhitelist(d.whitelist, m.repo)
  {
    if keys == [] then lic
    else
      var l := AddMatchKeys(lic, m, keys[..|keys| - 1], d);
      var k := keys[|keys| - 1];
      if k in d.whitelist[m.repo] || d.installedAccepted(k) then l else l[k := Get(l, k) + {m}]
  }

  /** One iteration of the outer loop of `get_licenses_to_accept`. */
  function AddMatch(lic: map<string, set<PackageMatch>>, m: PackageMatch, d: LicenseData): map<string, set<PackageMatch>> {
    if !HasWhitelist(d.whitelist, m.repo) then lic
    else AddMatchKeys(lic, m, Filter(d.keysOf(m), NotAccepted(d.accepted)), d)
  }

  /** The map `get_licenses_to_accept` builds for the queue `q`. */
  function LicensesFor(q: seq<PackageMatch>, d: LicenseData): map<string, set<PackageMatch>> {
    if q == [] then map[] else AddMatch(LicensesFor(q[..|q| - 1], d), q[|q| - 1], d)
  }

  lemma {:induction false} AddMatchKeysAdds(lic: map<string, set<PackageMatch>>, m: PackageMatch, keys: seq<string>,
                                           d: LicenseData, key: string)
    requires HasWhitelist(d.whitelist, m.repo)
    ensures var added := key in keys && key !in d.whitelist[m.repo] && !d.installedAccepted(key);
      Get(AddMatchKeys(lic, m, keys, d), key) == Get(lic, key) + (if added then {m} else {}) &&
      (key in AddMatchKeys(lic, m, keys, d) <==> key in lic || added)
    decreases |keys|
  {
    if keys != [] {
      var init := keys[..|keys| - 1];
      AddMatchKeysAdds(lic, m, init, d, key);
      assert keys == init + [keys[|keys| - 1]];
    }
  }

  /** Adding one match adds it under exactly the licenses it needs. */
  lemma AddMatchAdds(lic: map<string, set<PackageMatch>>, m: PackageMatch, d: LicenseData, key: string)
    ensures Get(AddMatch(lic, m, d), key) == Get(lic, key) + (if Needs(d, m, key) then {m} else {})
    ensures key in AddMatch(lic, m, d) <==> key in lic || Needs(d, m, key)
  {
    if HasWhitelist(d.whitelist, m.repo) {
      var keys := Filter(d.keysOf(m), NotAccepted(d.accepted));
      FilterMembers(d.keysOf(m), NotAccepted(d.accepted));
      AddMatchKeysAdds(lic, m, keys, d, key);
    }
  }

  /**
   * What `get_licenses_to_accept` returns: under each license, exactly the queued matches that
   * need it, and a license is a key of the map exactly when some queued match needs it.
   */
  lemma {:induction false} LicensesForNeeding(q: seq<PackageMatch>, d: LicenseData, key: string)
    ensures Get(LicensesFor(q, d), key) == NeedingMatches(q, d, key)
    ensures key in LicensesFor(q, d) <==> NeedingMatches(q, d, key) != {}
    decreases |q|
  {
    if q != [] {
      var p := q[..|q| - 1];
      var m := q[|q| - 1];
      LicensesForNeeding(p, d, key);
      AddMatchAdds(LicensesFor(p, d), m, d, key);
      assert q == p + [m];
      assert NeedingMatches(q, d, key) == NeedingMatches(p, d, key) + (if Needs(d, m, key) then {m} else {});
    }
  }

  /** A free package never asks for a license. */
  lemma FreeNeedsNothing(d: LicenseData, m: PackageMatch, q: seq<PackageMatch>, key: string)
    requires IsEntropyPackageFree(d.whitelist, m.repo, d.keysOf(m))
    ensures m !in Get(LicensesFor(q, d), key)
  {
    LicensesForNeeding(q, d, key);
  }

  /** `get_licenses_to_accept`. */
  method GetLicensesToAccept(queue: seq<PackageMatch>, d: LicenseData) returns (licenses: map<string, set<PackageMatch>>)
    ensures licenses == LicensesFor(queue, d)
    ensures forall key :: key in licenses ==> licenses[key] == NeedingMatches(queue, d, key) != {}
    ensures forall key :: key !in licenses ==> NeedingMatches(queue, d, key) == {}
  {
    licenses := map[];
    var i := 0;
    while i < |queue|
      invariant i <= |queue|
      invariant licenses == LicensesFor(queue[..i], d)
    {
      assert queue[..i + 1][..i] == queue[..i];
      var m := queue[i];
      if HasWhitelist(d.whitelist, m.repo) {
        var keys := Filter(d.keysOf(m), NotAccepted(d.accepted));
        licenses := AddKeysOf(licenses, m, keys, d);
      }
      i := i + 1;
    }
    assert queue[..i] == queue;
    forall key ensures Get(licenses, key) == NeedingMatches(queue, d, key) &&
      (key in licenses <==> NeedingMatches(queue, d, key) != {}) {
      LicensesForNeeding(queue, d, key);
    }
  }

  method AddKeysOf(lic: map<string, set<PackageMatch>>, m: PackageMatch, keys: seq<string>, d: LicenseData)
    returns (r: map<string, set<PackageMatch>>)
    requires HasWhitelist(d.whitelist, m.repo)
    ensures r == AddMatchKeys(lic, m, keys, d)
  {
    r := lic;
    var j := 0;
    while j < |keys|
      invariant j <= |keys|
      invariant r == AddMatchKeys(lic, m, keys[..j], d)
    {
      assert keys[..j + 1][..j] == keys[..j];
      var key := keys[j];
      if key !in d.whitelist[m.repo] && !d.installedAccepted(key) {
        var obj := if key in r then r[key] else {};
        r := r[key := obj + {m}];
      }
      j := j + 1;
    }
    assert keys[..j] == keys;
  }
}
