/**
 * `MatchMixin`: what installing a package match would do, the conflicts it has with installed
 * packages, the masking queries, and masking and unmasking through the live overlay sets and
 * the user's mask and unmask files.
 *
 * A package match is `(package id, repository id)`. The repository databases, the masking
 * validator (`idpackageValidator`), `atom_match` and the version comparator are inputs.
 */
module MatchMask {
  import opened Wrappers
  import opened Text
  import opened Seqs

  datatype PackageMatch = PackageMatch(id: int, repo: string)

  /** `retrieveKeySlot`: the package key (`category/name`) and its slot. */
  datatype KeySlot = KeySlot(key: string, slot: string)

  /** `getVersioningData`: version, tag and revision. */
  datatype Versioning = Versioning(version: string, tag: string, revision: int)

  /** A package of the installed repository found by `searchKeySlot`, with its versioning data and digest. */
  datatype InstalledPackage = InstalledPackage(id: int, versioning: Versioning, digest: string)

  /** `etpConst['entropyslotprefix']`, which joins a key and a slot. */
  const SlotPrefix: string := ":"

  // ---- get_package_action ----

  /**
   * `get_package_action`: 1 (install) when no installed package has the candidate's key and
   * slot; otherwise the first one found is compared by `compare`: newer is 2 (upgrade), older
   * is -1 (downgrade), and the same version is 0 (reinstall) unless the digests differ, in
   * which case it is shown as an upgrade (2).
   */
  function GetPackageAction(candidate: Versioning, digest: string, installed: seq<InstalledPackage>,
                            compare: (Versioning, Versioning) -> int): (action: int)
    ensures action == 1 <==> installed == []
    ensures action == 2 <==> installed != [] && Upgrades(candidate, digest, installed[0], compare)
    ensures action == 0 <==> installed != [] && Reinstalls(candidate, digest, installed[0], compare)
    ensures action == -1 <==> installed != [] && compare(candidate, installed[0].versioning) < 0
  {
    if installed == [] then 1
    else
      var cmp := compare(candidate, installed[0].versioning);
      if cmp == 0 then
        if installed[0].digest != digest then 2 else 0
      else if cmp > 0 then 2
      else -1
  }

  /** The same version as the installed package, with the same digest. */
  predicate Reinstalls(candidate: Versioning, digest: string, inst: InstalledPackage,
                       compare: (Versioning, Versioning) -> int) {
    compare(candidate, inst.versioning) == 0 && digest == inst.digest
  }

  /** Newer than the installed package, or the same version built differently. */
  predicate Upgrades(candidate: Versioning, digest: string, inst: InstalledPackage,
                     compare: (Versioning, Versioning) -> int) {
    compare(candidate, inst.versioning) > 0 ||
    (compare(candidate, inst.versioning) == 0 && digest != inst.digest)
  }

  // ---- get_match_conflicts ----

  /**
   * The installed packages `get_match_conflicts` reports: for each conflict atom of the
   * candidate that `atom_match` finds installed (an id other than -1), that package, unless it
   * has the candidate's own key and slot.
   */
  function ConflictIds(conflicts: seq<string>, candidate: KeySlot, atomMatch: string -> int,
                       keySlotOf: int -> KeySlot): set<int> {
    set c | c in conflicts && IsConflict(c, candidate, atomMatch, keySlotOf) :: atomMatch(c)
  }

  predicate IsConflict(c: string, candidate: KeySlot, atomMatch: string -> int, keySlotOf: int -> KeySlot) {
    atomMatch(c) != -1 && keySlotOf(atomMatch(c)) != candidate
  }

  method GetMatchConflicts(conflicts: seq<string>, candidate: KeySlot, atomMatch: string -> int,
                           keySlotOf: int -> KeySlot) returns (found: set<int>)
    ensures found == ConflictIds(conflicts, candidate, atomMatch, keySlotOf)
    ensures -1 !in found
    ensures forall id :: id in found ==> keySlotOf(id) != candidate
  {
    found := {};
    var i := 0;
    while i < |conflicts|
      invariant i <= |conflicts|
      invariant found == ConflictIds(conflicts[..i], candidate, atomMatch, keySlotOf)
    {
      ConflictIdsSnoc(conflicts[..i], conflicts[i], candidate, atomMatch, keySlotOf);
      assert conflicts[..i + 1] == conflicts[..i] + [conflicts[i]];
      var myId := atomMatch(conflicts[i]);
      if myId != -1 {
        if candidate != keySlotOf(myId) {
          found := found + {myId};
        }
      }
      i := i + 1;
    }
    assert conflicts[..i] == conflicts;
  }

  lemma ConflictIdsSnoc(s: seq<string>, c: string, candidate: KeySlot, atomMatch: string -> int,
                        keySlotOf: int -> KeySlot)
    ensures ConflictIds(s + [c], candidate, atomMatch, keySlotOf) ==
      ConflictIds(s, candidate, atomMatch, keySlotOf) +
      (if IsConflict(c, candidate, atomMatch, keySlotOf) then {atomMatch(c)} else {})
  {
    var lhs := ConflictIds(s + [c], candidate, atomMatch, keySlotOf);
    var rhs := ConflictIds(s, candidate, atomMatch, keySlotOf) +
      (if IsConflict(c, candidate, atomMatch, keySlotOf) then {atomMatch(c)} else {});
    forall id | id in lhs ensures id in rhs {
      var d :| d in s + [c] && IsConflict(d, candidate, atomMatch, keySlotOf) && atomMatch(d) == id;
      if d != c {
        assert d in s;
      }
    }
    forall id | id in rhs ensures id in lhs {
      if id !in ConflictIds(s, candidate, atomMatch, keySlotOf) {
        assert c in s + [c];
      } else {
        var d :| d in s && IsConflict(d, candidate, atomMatch, keySlotOf) && atomMatch(d) == id;
        assert d in s + [c];
      }
    }
  }

  // ---- masking queries ----

  /** `idpackageValidator`'s answer: the package id, or -1 when masked, and the reason code. */
  datatype Validation = Validation(id: int, reason: int)

  /** The reason codes of `SystemSettings['pkg_masking_reference']` the user's files produce. */
  datatype MaskingReference = MaskingReference(
    userPackageMask: int,
    userLicenseMask: int,
    userLiveMask: int,
    userPackageUnmask: int,
    userLiveUnmask: int,
    userPackageKeywords: int,
    userRepoPackageKeywordsAll: int,
    userRepoPackageKeywords: int)

  function UserMaskReasons(r: MaskingReference): seq<int> {
    [r.userPackageMask, r.userLicenseMask, r.userLiveMask]
  }

  function UserUnmaskReasons(r: MaskingReference): seq<int> {
    [r.userPackageUnmask, r.userLiveUnmask, r.userPackageKeywords, r.userRepoPackageKeywordsAll,
     r.userRepoPackageKeywords]
  }

  /** `is_match_masked`: the validator rejects the package, answering with the -1 sentinel id. */
  predicate IsMatchMasked(v: Validation) {
    v.id == -1
  }

  /**
   * `is_match_masked_by_user`: only for a match of an enabled repository that is masked, and
   * then whether the reason is one of the user's mask reasons.
   */
  function IsMatchMaskedByUser(m: PackageMatch, enabled: seq<string>, v: Validation, r: MaskingReference): (byUser: bool)
    ensures byUser ==> m.repo in enabled && IsMatchMasked(v)
    ensures byUser <==> m.repo in enabled && IsMatchMasked(v) && v.reason in UserMaskReasons(r)
  {
    if m.repo !in enabled then false
    else if v.id != -1 then false
    else v.reason in UserMaskReasons(r)
  }

  /**
   * `is_match_unmasked_by_user`: only for a match of an enabled repository that is not masked,
   * and then whether the reason is one of the user's unmask or keyword reasons.
   */
  function IsMatchUnmaskedByUser(m: PackageMatch, enabled: seq<string>, v: Validation, r: MaskingReference): (byUser: bool)
    ensures byUser ==> m.repo in enabled && !IsMatchMasked(v)
    ensures byUser <==> m.repo in enabled && !IsMatchMasked(v) && v.reason in UserUnmaskReasons(r)
  {
    if m.repo !in enabled then false
    else if v.id == -1 then false
    else v.reason in UserUnmaskReasons(r)
  }

  /** For one validator answer a match is never both masked and unmasked by the user. */
  lemma UserMaskExclusive(m: PackageMatch, enabled: seq<string>, v: Validation, r: MaskingReference)
    ensures !(IsMatchMaskedByUser(m, enabled, v, r) && IsMatchUnmaskedByUser(m, enabled, v, r))
  {
  }

  /**
   * `get_masked_package_reason`: whether the validator masks the package, its reason code and
   * the reason's text from `SystemSettings['pkg_masking_reasons']`, `None` when it has none.
   */
  function GetMaskedPackageReason(v: Validation, reasons: map<int, string>): (r: (bool, int, Option<string>))
    ensures r.0 == IsMatchMasked(v) && r.1 == v.reason
    ensures r.2.Some? <==> v.reason in reasons
    ensures r.2.Some? ==> r.2.value == reasons[v.reason]
  {
    (v.id == -1, v.reason, if v.reason in reasons then Some(reasons[v.reason]) else None)
  }

  // ---- the live sets and the mask files ----

  /**
   * A user settings file: missing (with whether its directory may be written), or present
   * with whether it may be written and its lines.
   */
  datatype TextFile = Missing(dirWritable: bool) | Present(writable: bool, lines: seq<string>)

  /**
   * The masking state: `SystemSettings['live_packagemasking']`'s `mask_matches` and
   * `unmask_matches` sets, and the files `get_setting_files_data()['mask']` and `['unmask']`.
   */
  datatype Masking = Masking(liveMask: set<PackageMatch>, liveUnmask: set<PackageMatch>,
                             maskFile: TextFile, unmaskFile: TextFile)

  /**
   * A line `_clear_match_generic` keeps: a comment, a blank line, or one whose atom does not
   * match `m`.
   */
  predicate KeptLine(m: PackageMatch, atomMatch: string -> PackageMatch, line: string) {
    var s := Strip(line);
    StartsWith(s, "#") || s == [] || atomMatch(s) != m
  }

  function KeepLine(m: PackageMatch, atomMatch: string -> PackageMatch): string -> bool {
    line => KeptLine(m, atomMatch, line)
  }

  predicate IsCommentOrBlank(line: string) {
    StartsWith(Strip(line), "#") || Strip(line) == []
  }

  /** A file `_clear_match_generic` rewrites: present and writable; other files are left alone. */
  function ClearedFile(f: TextFile, m: PackageMatch, atomMatch: string -> PackageMatch): TextFile {
    if f.Present? && f.writable then f.(lines := Filter(f.lines, KeepLine(m, atomMatch))) else f
  }

  /**
   * `clear_match_mask`: nothing in a dry run; otherwise the match leaves both live sets, and
   * both files lose the lines that name it, keeping all other lines verbatim and in order.
   */
  function ClearMatchMask(s: Masking, m: PackageMatch, dryRun: bool, atomMatch: string -> PackageMatch): (r: Masking)
    ensures dryRun ==> r == s
    ensures !dryRun ==> m !in r.liveMask && m !in r.liveUnmask
    ensures !dryRun ==> r.liveMask + {m} == s.liveMask + {m} && r.liveUnmask + {m} == s.liveUnmask + {m}
  {
    if dryRun then s
    else Masking(s.liveMask - {m}, s.liveUnmask - {m},
      ClearedFile(s.maskFile, m, atomMatch), ClearedFile(s.unmaskFile, m, atomMatch))
  }

  /** Whether `_mask_unmask_match_generic` may write the file: its directory, or the file itself. */
  predicate MayWrite(f: TextFile) {
    if f.Missing? then f.dirWritable else f.writable
  }

  /**
   * The file after `_mask_unmask_match_generic` appended `keyword` (not in a dry run): the old
   * lines, stripped, then the keyword; a missing file is created with the keyword alone; a
   * file that may not be written is left alone.
   */
  function AppendedFile(f: TextFile, keyword: string): (r: TextFile)
    ensures MayWrite(f) ==> (r.Present? && r.writable && |r.lines| == (if f.Present? then |f.lines| else 0) + 1 &&
                             r.lines[|r.lines| - 1] == keyword)
    ensures MayWrite(f) && f.Present? ==> forall i :: 0 <= i < |f.lines| ==> r.lines[i] == Strip(f.lines[i])
    ensures !MayWrite(f) ==> r == f
  {
    match f
    case Missing(dirWritable) => if dirWritable then Present(true, [keyword]) else f
    case Present(writable, lines) => if writable then Present(true, MapSeq(lines, Strip) + [keyword]) else f
  }

  /** The `methods` table of `mask_match` and `unmask_match`. */
  predicate ValidMethod(how: string) {
    how == "atom" || how == "keyslot"
  }

  /** What `mask_match_by_keyslot` and `unmask_match_by_keyslot` write: `key` + slot prefix + `slot`. */
  function Keyword(how: string, atom: string, ks: KeySlot): string {
    if how == "atom" then atom else ks.key + SlotPrefix + ks.slot
  }

  /**
   * `mask_match` (`toMask`) and `unmask_match`. `masked` is `is_match_masked(match, False)`.
   * A match already in the wanted state is a success with no change. An unknown method raises
   * `AttributeError` (the `Err`) before anything changes. Otherwise the match is cleared, the
   * keyword is appended to the mask (or unmask) file unless in a dry run, and the outcome is
   * whether that file may be written, even in a dry run; a dry run then moves the match into
   * the live mask (or unmask) set.
   */
  function MaskUnmask(s: Masking, m: PackageMatch, how: string, dryRun: bool, masked: bool, toMask: bool,
                      atom: string, ks: KeySlot, atomMatch: string -> PackageMatch): (r: (Masking, Result<bool, string>))
    ensures masked == toMask ==> r == (s, Ok(true))
    ensures masked != toMask && !ValidMethod(how) ==> r.0 == s && r.1.Err?
  {
    if masked == toMask then (s, Ok(true))
    else if !ValidMethod(how) then (s, Err("not a valid method: " + how))
    else
      var kw := Keyword(how, atom, ks);
      var c := ClearMatchMask(s, m, dryRun, atomMatch);
      var target := if toMask then c.maskFile else c.unmaskFile;
      var done := MayWrite(target);
      if dryRun then
        if toMask then (c.(liveMask := c.liveMask + {m}, liveUnmask := c.liveUnmask - {m}), Ok(done))
        else (c.(liveMask := c.liveMask - {m}, liveUnmask := c.liveUnmask + {m}), Ok(done))
      else if toMask then (c.(maskFile := AppendedFile(target, kw)), Ok(done))
      else (c.(unmaskFile := AppendedFile(target, kw)), Ok(done))
  }

  // ---- properties of clearing and masking ----

  /** Clearing twice is clearing once. */
  lemma ClearIdempotent(s: Masking, m: PackageMatch, dryRun: bool, atomMatch: string -> PackageMatch)
    ensures ClearMatchMask(ClearMatchMask(s, m, dryRun, atomMatch), m, dryRun, atomMatch) ==
      ClearMatchMask(s, m, dryRun, atomMatch)
  {
    var k := KeepLine(m, atomMatch);
    if s.maskFile.Present? {
      FilterFilter(s.maskFile.lines, k, k, k);
    }
    if s.unmaskFile.Present? {
      FilterFilter(s.unmaskFile.lines, k, k, k);
    }
  }

  /** A cleared file keeps exactly its comment and blank lines, in order. */
  lemma {:induction false} ClearKeepsComments(f: TextFile, m: PackageMatch, atomMatch: string -> PackageMatch)
    requires f.Present?
    ensures Filter(ClearedFile(f, m, atomMatch).lines, IsCommentOrBlank) == Filter(f.lines, IsCommentOrBlank)
  {
    if f.writable {
      FilterFilter(f.lines, KeepLine(m, atomMatch), IsCommentOrBlank, IsCommentOrBlank);
    }
  }

  /** After a real clear, no line of a writable file names the match any more. */
  lemma ClearedNamesNoMatch(f: TextFile, m: PackageMatch, atomMatch: string -> PackageMatch)
    requires f.Present? && f.writable
    ensures forall x :: x in ClearedFile(f, m, atomMatch).lines ==> KeptLine(m, atomMatch, x)
    ensures forall x :: x in f.lines && KeptLine(m, atomMatch, x) ==> x in ClearedFile(f, m, atomMatch).lines
  {
    FilterMembers(f.lines, KeepLine(m, atomMatch));
  }

  /**
   * A dry run writes no file, and leaves the match in the live set of the wanted state only;
   * its outcome still depends on whether the target file may be written.
   */
  lemma DryRunTouchesOnlyLiveSets(s: Masking, m: PackageMatch, how: string, masked: bool, toMask: bool,
                                  atom: string, ks: KeySlot, atomMatch: string -> PackageMatch)
    requires masked != toMask && ValidMethod(how)
    ensures var (t, r) := MaskUnmask(s, m, how, true, masked, toMask, atom, ks, atomMatch);
      t.maskFile == s.maskFile && t.unmaskFile == s.unmaskFile &&
      (m in t.liveMask) == toMask && (m in t.liveUnmask) == !toMask &&
      r == Ok(MayWrite(if toMask then s.maskFile else s.unmaskFile))
  {
  }

  /**
   * A real mask (or unmask) whose target file may be written leaves the match in neither live
   * set, removes every line naming it from the other file, and makes the target file its
   * cleared lines, stripped, followed by the keyword.
   */
  lemma RealMaskWritesKeyword(s: Masking, m: PackageMatch, how: string, masked: bool, toMask: bool,
                              atom: string, ks: KeySlot, atomMatch: string -> PackageMatch)
    requires masked != toMask && ValidMethod(how)
    requires MayWrite(if toMask then s.maskFile else s.unmaskFile)
    ensures var (t, r) := MaskUnmask(s, m, how, false, masked, toMask, atom, ks, atomMatch);
      var target := if toMask then t.maskFile else t.unmaskFile;
      var old_target := ClearedFile(if toMask then s.maskFile else s.unmaskFile, m, atomMatch);
      r == Ok(true) && m !in t.liveMask && m !in t.liveUnmask &&
      target == Present(true, (if old_target.Present? then MapSeq(old_target.lines, Strip) else []) +
        [Keyword(how, atom, ks)])
  {
  }

  /**
   * After a real unmask, the mask file (when it may be written) holds no line naming the match;
   * after a real mask, the same holds for the unmask file.
   */
  lemma RealMaskClearsOtherFile(s: Masking, m: PackageMatch, how: string, masked: bool, toMask: bool,
                                atom: string, ks: KeySlot, atomMatch: string -> PackageMatch)
    requires masked != toMask && ValidMethod(how)
    requires var other := if toMask then s.unmaskFile else s.maskFile; other.Present? && other.writable
    ensures var t := MaskUnmask(s, m, how, false, masked, toMask, atom, ks, atomMatch).0;
      var other := if toMask then t.unmaskFile else t.maskFile;
      forall x :: x in other.lines ==> KeptLine(m, atomMatch, x)
  {
    ClearedNamesNoMatch(if toMask then s.unmaskFile else s.maskFile, m, atomMatch);
  }

  /** The class holding the masking state the client changes in place. */
  class MaskState {
    var liveMask: set<PackageMatch>
    var liveUnmask: set<PackageMatch>
    var maskFile: TextFile
    var unmaskFile: TextFile

    constructor (s: Masking)
      ensures State() == s
    {
      liveMask := s.liveMask;
      liveUnmask := s.liveUnmask;
      maskFile := s.maskFile;
      unmaskFile := s.unmaskFile;
    }

    function State(): Masking
      reads this
    {
      Masking(liveMask, liveUnmask, maskFile, unmaskFile)
    }

    /** `clear_match_mask` and `_clear_match_generic`. */
    method ClearMatchMaskOf(m: PackageMatch, dryRun: bool, atomMatch: string -> PackageMatch)
      modifies this
      ensures State() == ClearMatchMask(old(State()), m, dryRun, atomMatch)
    {
      if dryRun {
        return;
      }
      liveUnmask := liveUnmask - {m};
      liveMask := liveMask - {m};
      maskFile := ClearFile(maskFile, m, atomMatch);
      unmaskFile := ClearFile(unmaskFile, m, atomMatch);
    }

    /**
     * `_mask_unmask_match_generic` on the mask file (`toMask`) or the unmask file: whether the
     * file may be written; unless in a dry run, the keyword is appended to it.
     */
    method AppendKeyword(keyword: string, toMask: bool, dryRun: bool) returns (done: bool)
      modifies this
      ensures done == MayWrite(if toMask then old(maskFile) else old(unmaskFile))
      ensures liveMask == old(liveMask) && liveUnmask == old(liveUnmask)
      ensures toMask ==> unmaskFile == old(unmaskFile)
      ensures toMask ==> maskFile == if dryRun then old(maskFile) else AppendedFile(old(maskFile), keyword)
      ensures !toMask ==> maskFile == old(maskFile)
      ensures !toMask ==> unmaskFile == if dryRun then old(unmaskFile) else AppendedFile(old(unmaskFile), keyword)
    {
      var f := if toMask then maskFile else unmaskFile;
      var written;
      done, written := AppendToFile(f, keyword, dryRun);
      if toMask {
        maskFile := written;
      } else {
        unmaskFile := written;
      }
    }

    /** `mask_match` (`toMask`) or `unmask_match`, with `validator` answering `idpackageValidator(id, live)`. */
    method MaskUnmaskMatch(m: PackageMatch, how: string, dryRun: bool, toMask: bool,
                           validator: (PackageMatch, bool) -> Validation,
                           atom: string, ks: KeySlot, atomMatch: string -> PackageMatch)
      returns (r: Result<bool, string>)
      modifies this
      ensures (State(), r) ==
        MaskUnmask(old(State()), m, how, dryRun, IsMatchMasked(validator(m, false)), toMask, atom, ks, atomMatch)
    {
      var masked := IsMatchMasked(validator(m, false));
      if masked == toMask {
        return Ok(true);
      }
      if !ValidMethod(how) {
        return Err("not a valid method: " + how);
      }
      var kw := if how == "atom" then atom else ks.key + SlotPrefix + ks.slot;
      ClearMatchMaskOf(m, dryRun, atomMatch);
      var done := AppendKeyword(kw, toMask, dryRun);
      if dryRun {
        if toMask {
          liveUnmask := liveUnmask - {m};
          liveMask := liveMask + {m};
        } else {
          liveUnmask := liveUnmask + {m};
          liveMask := liveMask - {m};
        }
      }
      r := Ok(done);
    }
  }

  /** Rewriting one file without the lines that name `m`, when it is present and writable. */
  method ClearFile(f: TextFile, m: PackageMatch, atomMatch: string -> PackageMatch) returns (r: TextFile)
    ensures r == ClearedFile(f, m, atomMatch)
  {
    if !(f.Present? && f.writable) {
      return f;
    }
    var kept := KeepLines(f.lines, m, atomMatch);
    r := f.(lines := kept);
  }

  /** The copy loop of `_clear_match_generic`: every line is written again unless it names `m`. */
  method KeepLines(lines: seq<string>, m: PackageMatch, atomMatch: string -> PackageMatch) returns (kept: seq<string>)
    ensures kept == Filter(lines, KeepLine(m, atomMatch))
  {
    kept := [];
    var i := 0;
    while i < |lines|
      invariant i <= |lines|
      invariant kept == Filter(lines[..i], KeepLine(m, atomMatch))
    {
      FilterPrefixStep(lines, i, KeepLine(m, atomMatch));
      var stripLine := Strip(lines[i]);
      assert KeepLine(m, atomMatch)(lines[i]) == (StartsWith(stripLine, "#") || stripLine == [] || atomMatch(stripLine) != m);
      if StartsWith(stripLine, "#") || stripLine == [] || atomMatch(stripLine) != m {
        kept := kept + [lines[i]];
      }
      i := i + 1;
    }
    assert lines[..i] == lines;
  }

  /** `_mask_unmask_match_generic` on one file: the outcome and the file afterwards. */
  method AppendToFile(f: TextFile, keyword: string, dryRun: bool) returns (done: bool, r: TextFile)
    ensures done == MayWrite(f)
    ensures r == if dryRun then f else AppendedFile(f, keyword)
  {
    var exist := false;
    if f.Missing? {
      if !f.dirWritable {
        return false, f;
      }
    } else if !f.writable {
      return false, f;
    } else if !dryRun {
      exist := true;
    }
    if dryRun {
      return true, f;
    }
    var content: seq<string> := [];
    if exist {
      content := MapSeq(f.lines, Strip);
    }
    content := content + [keyword];
    return true, Present(true, content);
  }
}
