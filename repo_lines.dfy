/**
 * The repositories configuration file as a list of stripped lines, and the rewrites that
 * `RepositoryMixin.__save_repository_settings` (add, remove, disable, enable) and
 * `RepositoryMixin.__write_ordered_repositories_entries` (reorder) apply to it.
 *
 * A repository entry has the form `repository|<id>|<description>|<mirrors>|<db>#<format>#<port>,<sslport>`;
 * a single leading `#` (but not `##`) marks a disabled entry.
 */
module RepoLines {
  import opened Text
  import opened Seqs

  const RepositoryPrefix: string := "repository|"

  /** `etpConst['packagesext']`: package-file repositories are never written to the file. */
  const PackagesExtension: string := ".tbz2"

  /** What every add or remove matches on: the entry prefix, so `repository|ab` also matches id `a`. */
  function IdPrefix(id: string): string {
    RepositoryPrefix + id
  }

  /** A line starting with exactly one `#`. */
  predicate IsDisabledMarker(x: string) {
    StartsWith(x, "#") && !StartsWith(x, "##")
  }

  /** A line the save path treats as a repository entry, enabled or disabled. */
  predicate IsRepoCandidate(x: string) {
    StartsWith(x, RepositoryPrefix) || (IsDisabledMarker(x) && Contains(x, RepositoryPrefix))
  }

  predicate IsOtherLine(x: string) {
    !IsRepoCandidate(x)
  }

  /** `len(x.split("|")) == 5`. */
  predicate HasFiveFields(x: string) {
    |Split(x, '|')| == 5
  }

  /** `x.split("|")[1]`; the source only asks this of five-field lines. */
  function FieldOne(x: string): string {
    var f := Split(x, '|');
    if |f| >= 2 then f[1] else ""
  }

  function NotIdLine(id: string): string -> bool {
    x => !StartsWith(x, IdPrefix(id))
  }

  function NotDisabledIdLine(id: string): string -> bool {
    x => !(IsDisabledMarker(x) && Contains(x, IdPrefix(id)))
  }

  /** The add path's search for a disabled entry of the id (it tests `#` only, not `##`). */
  function NotCommentedIdLine(id: string): string -> bool {
    x => !(StartsWith(x, "#") && Contains(x, IdPrefix(id)))
  }

  predicate AnyLine(x: string) {
    true
  }

  /** The four rewrites of the save path; `Add` carries the entry line to append. */
  datatype SaveOp = Add(line: string) | Remove | Disable | Enable

  /** What the save path does to one five-field entry line. */
  function Toggle(op: SaveOp, id: string, x: string): string {
    if op.Disable? && FieldOne(x) == id then
      (if StartsWith(x, "#") then x else "#" + x)
    else if op.Enable? && FieldOne(x) == id && StartsWith(x, "#") then
      x[1..]
    else x
  }

  function ToggleAll(op: SaveOp, id: string, s: seq<string>): seq<string> {
    MapSeq(s, x => Toggle(op, id, x))
  }

  /** The first step of add and remove: drop every line that starts with the id prefix. */
  function Prefiltered(content: seq<string>, id: string, op: SaveOp): seq<string> {
    if op.Add? || op.Remove? then
      var c := Filter(content, NotIdLine(id));
      if op.Remove? then Filter(c, NotDisabledIdLine(id)) else c
    else content
  }

  /** The five-field entries, toggled for disable/enable, in their original order. */
  function Entries(c: seq<string>, id: string, op: SaveOp): seq<string> {
    ToggleAll(op, id, Filter(Filter(c, IsRepoCandidate), HasFiveFields))
  }

  /**
   * The new contents of the configuration file (before the write), from its old stripped lines.
   * Remove only filters; the others put every non-entry line first and the entries last.
   */
  function SaveTransform(content: seq<string>, id: string, op: SaveOp): seq<string> {
    var c := Prefiltered(content, id, op);
    if op.Remove? then c
    else
      var entries := Entries(c, id, op);
      Filter(c, IsOtherLine) + (if op.Add? then Filter(entries, NotCommentedIdLine(id)) + [op.line] else entries)
  }

  // ---- the counter-keyed build of the save path ----

  /** The values stored under the keys 0 .. n-1 of a counter-keyed map, in key order. */
  function Collect(d: map<nat, string>, n: nat): seq<string> {
    if n == 0 then [] else Collect(d, n - 1) + (if n - 1 in d then [d[n - 1]] else [])
  }

  function Indexed(s: seq<string>, p: string -> bool): map<nat, string> {
    map k: nat | k < |s| && p(s[k]) :: s[k]
  }

  lemma {:induction false} CollectAgree(d1: map<nat, string>, d2: map<nat, string>, n: nat)
    requires forall k: nat :: k < n ==> (k in d1 <==> k in d2) && (k in d1 ==> d1[k] == d2[k])
    ensures Collect(d1, n) == Collect(d2, n)
  {
    if n > 0 {
      CollectAgree(d1, d2, n - 1);
    }
  }

  lemma {:induction false} CollectIndexed(s: seq<string>, p: string -> bool, n: nat)
    requires n <= |s|
    ensures Collect(Indexed(s, p), n) == Filter(s[..n], p)
  {
    if n == 0 {
      assert s[..0] == [];
    } else {
      CollectIndexed(s, p, n - 1);
      assert s[..n] == s[..n - 1] + [s[n - 1]];
      FilterSnoc(s[..n - 1], s[n - 1], p);
    }
  }

  /**
   * The save path as the source runs it: entries are numbered by a counter into a map, the
   * add path deletes the numbers of disabled entries for the id and files the new line under
   * the next number, and the map is written out in key order after the other lines.
   */
  method SaveContent(content: seq<string>, id: string, op: SaveOp) returns (out: seq<string>)
    ensures out == SaveTransform(content, id, op)
  {
    var c := content;
    if !op.Disable? && !op.Enable? {
      c := Filter(c, NotIdLine(id));
      if op.Remove? {
        c := Filter(c, NotDisabledIdLine(id));
      }
    }
    assert c == Prefiltered(content, id, op);
    if op.Remove? {
      return c;
    }
    var repolines := Filter(c, IsRepoCandidate);
    out := Filter(c, IsOtherLine);
    repolines := Filter(repolines, HasFiveFields);
    var written := SaveEntries(repolines, id, op);
    out := out + written;
  }

  /**
   * The entry part of the save path: the five-field entries numbered into the counter-keyed
   * map, the add path's deletions and new line, and the map written out in key order.
   */
  method SaveEntries(repolines: seq<string>, id: string, op: SaveOp) returns (written: seq<string>)
    requires !op.Remove?
    ensures written == if op.Add? then Filter(ToggleAll(op, id, repolines), NotCommentedIdLine(id)) + [op.line]
      else ToggleAll(op, id, repolines)
  {
    ghost var entries := ToggleAll(op, id, repolines);
    var data := NumberEntries(repolines, id, op);
    var count := |repolines|;
    if op.Add? {
      var toRemove := CommentedIdKeys(data, id);
      data := data - toRemove;
      data := data[count := op.line];
    }
    written := InKeyOrder(data, count + 1);
    CollectSaved(entries, id, op, data);
  }

  /** The save path's first loop: the toggled entries filed under a counter starting at 0. */
  method NumberEntries(repolines: seq<string>, id: string, op: SaveOp) returns (data: map<nat, string>)
    ensures data == Indexed(ToggleAll(op, id, repolines), AnyLine)
  {
    ghost var entries := ToggleAll(op, id, repolines);
    data := map[];
    var count := 0;
    while count < |repolines|
      invariant count <= |repolines|
      invariant forall k: nat :: k in data <==> k < count
      invariant forall k: nat :: k in data ==> data[k] == entries[k]
    {
      data := data[count := Toggle(op, id, repolines[count])];
      count := count + 1;
    }
  }

  /**
   * The save path's second loop, which walks the sorted keys of `repolines_data` and appends
   * each line. Every key is below `n`, so walking 0..n-1 and skipping the absent counters
   * visits the same keys in the same ascending order.
   */
  method InKeyOrder(data: map<nat, string>, n: nat) returns (out: seq<string>)
    ensures out == Collect(data, n)
  {
    out := [];
    var k := 0;
    while k < n
      invariant k <= n
      invariant out == Collect(data, k)
    {
      if k in data {
        out := out + [data[k]];
      }
      k := k + 1;
    }
  }

  /** The keys of the add path's `to_remove`: disabled entries mentioning the id. */
  function CommentedIdKeys(d: map<nat, string>, id: string): set<nat> {
    set k | k in d && StartsWith(d[k], "#") && Contains(d[k], IdPrefix(id))
  }

  lemma RemoveCommentedKeys(entries: seq<string>, id: string)
    ensures Indexed(entries, AnyLine) - CommentedIdKeys(Indexed(entries, AnyLine), id) ==
      Indexed(entries, NotCommentedIdLine(id))
  {
  }

  /** Writing the counter-keyed map out in key order gives the entry part of the specification. */
  lemma CollectSaved(entries: seq<string>, id: string, op: SaveOp, data: map<nat, string>)
    requires data == if op.Add? then
        (Indexed(entries, AnyLine) - CommentedIdKeys(Indexed(entries, AnyLine), id))[|entries| := op.line]
      else Indexed(entries, AnyLine)
    ensures Collect(data, |entries| + 1) ==
      if op.Add? then Filter(entries, NotCommentedIdLine(id)) + [op.line] else entries
  {
    var n := |entries|;
    assert entries[..n] == entries;
    if op.Add? {
      var kept := Indexed(entries, NotCommentedIdLine(id));
      RemoveCommentedKeys(entries, id);
      CollectIndexed(entries, NotCommentedIdLine(id), n);
      CollectAgree(kept, data, n);
    } else {
      CollectIndexed(entries, AnyLine, n);
      FilterKeepsAll(entries, AnyLine);
      assert n !in data;
    }
  }

  // ---- what the rewrites promise ----

  /** The five-field entries of a file are exactly its entry lines that split into five fields. */
  lemma SaneMembers(c: seq<string>)
    ensures forall x :: x in Filter(Filter(c, IsRepoCandidate), HasFiveFields) <==>
      x in c && IsRepoCandidate(x) && HasFiveFields(x)
  {
    FilterMembers(c, IsRepoCandidate);
    FilterMembers(Filter(c, IsRepoCandidate), HasFiveFields);
  }

  lemma SplitAfterHash(x: string)
    ensures Split("#" + x, '|') == ["#" + Split(x, '|')[0]] + Split(x, '|')[1..]
  {
    assert ("#" + x)[1..] == x;
  }

  lemma HashKeepsFields(x: string)
    ensures |Split("#" + x, '|')| == |Split(x, '|')|
    ensures FieldOne("#" + x) == FieldOne(x)
  {
    SplitAfterHash(x);
  }

  /** Disabling a five-field entry keeps it a five-field entry. */
  lemma DisableKeepsEntry(id: string, x: string)
    requires IsRepoCandidate(x) && HasFiveFields(x)
    ensures IsRepoCandidate(Toggle(Disable, id, x)) && HasFiveFields(Toggle(Disable, id, x))
    ensures FieldOne(Toggle(Disable, id, x)) == FieldOne(x)
  {
    if FieldOne(x) == id && !StartsWith(x, "#") {
      var y := "#" + x;
      HashKeepsFields(x);
      assert StartsWith(x, RepositoryPrefix);
      assert y[1] == x[0] == 'r';
      assert y[..1] == "#";
      StartsWithContains(x, RepositoryPrefix);
      ContainsExtend(x, RepositoryPrefix, "#");
    }
  }

  /** The disable and enable paths do not change which lines are entries when fed a disable result. */
  lemma {:induction false} ResaveOfDisabled(c: seq<string>, id: string, op: SaveOp)
    requires op.Disable? || op.Enable?
    ensures var d := SaveTransform(c, id, Disable);
      Filter(d, IsOtherLine) == Filter(c, IsOtherLine) &&
      Filter(Filter(d, IsRepoCandidate), HasFiveFields) == Entries(c, id, Disable)
  {
    var d := SaveTransform(c, id, Disable);
    var others := Filter(c, IsOtherLine);
    var entries := Entries(c, id, Disable);
    var sane := Filter(Filter(c, IsRepoCandidate), HasFiveFields);
    assert d == others + entries;
    SaneMembers(c);
    FilterMembers(c, IsOtherLine);
    forall x | x in entries ensures IsRepoCandidate(x) && HasFiveFields(x) {
      var i :| 0 <= i < |entries| && entries[i] == x;
      assert sane[i] in sane;
      DisableKeepsEntry(id, sane[i]);
    }
    FilterAppend(others, entries, IsOtherLine);
    FilterDropsAll(entries, IsOtherLine);
    FilterKeepsAll(others, IsOtherLine);
    FilterAppend(others, entries, IsRepoCandidate);
    FilterDropsAll(others, IsRepoCandidate);
    FilterKeepsAll(entries, IsRepoCandidate);
    FilterKeepsAll(entries, HasFiveFields);
    assert Filter(d, IsRepoCandidate) == entries;
  }

  /** Disable is idempotent: disabling an entry twice writes what disabling it once wrote. */
  lemma DisableIdempotent(c: seq<string>, id: string)
    ensures SaveTransform(SaveTransform(c, id, Disable), id, Disable) == SaveTransform(c, id, Disable)
  {
    var d := SaveTransform(c, id, Disable);
    ResaveOfDisabled(c, id, Disable);
    var entries := Entries(c, id, Disable);
    var again := ToggleAll(Disable, id, entries);
    forall i | 0 <= i < |entries| ensures again[i] == entries[i] {
      var x := Filter(Filter(c, IsRepoCandidate), HasFiveFields)[i];
      if FieldOne(x) == id && !StartsWith(x, "#") {
        HashKeepsFields(x);
      }
    }
  }

  /** Enabling after disabling writes exactly what enabling alone would have written. */
  lemma EnableAfterDisable(c: seq<string>, id: string)
    ensures SaveTransform(SaveTransform(c, id, Disable), id, Enable) == SaveTransform(c, id, Enable)
  {
    ResaveOfDisabled(c, id, Enable);
    var sane := Filter(Filter(c, IsRepoCandidate), HasFiveFields);
    var entries := Entries(c, id, Disable);
    var back := ToggleAll(Enable, id, entries);
    forall i | 0 <= i < |sane| ensures back[i] == Toggle(Enable, id, sane[i]) {
      var x := sane[i];
      if FieldOne(x) == id && !StartsWith(x, "#") {
        HashKeepsFields(x);
        assert ("#" + x)[1..] == x;
      }
    }
  }

  /**
   * An enabled entry of the id survives a disable followed by an enable byte for byte,
   * and a disabled entry of the id comes back with exactly one `#` removed.
   */
  lemma DisableThenEnableRestores(c: seq<string>, id: string, x: string)
    requires x in c && IsRepoCandidate(x) && HasFiveFields(x) && FieldOne(x) == id
    ensures !StartsWith(x, "#") ==> x in SaveTransform(SaveTransform(c, id, Disable), id, Enable)
    ensures StartsWith(x, "#") ==> x[1..] in SaveTransform(SaveTransform(c, id, Disable), id, Enable)
  {
    EnableAfterDisable(c, id);
    var sane := Filter(Filter(c, IsRepoCandidate), HasFiveFields);
    SaneMembers(c);
    assert x in sane;
    var i :| 0 <= i < |sane| && sane[i] == x;
    assert Entries(c, id, Enable)[i] == Toggle(Enable, id, x);
  }

  /** Every other line of the file keeps its content under disable and enable. */
  lemma ToggleTouchesOnlyTheId(c: seq<string>, id: string, op: SaveOp, x: string)
    requires op.Disable? || op.Enable?
    requires x in c && (IsOtherLine(x) || (HasFiveFields(x) && FieldOne(x) != id))
    ensures x in SaveTransform(c, id, op)
  {
    if IsOtherLine(x) {
      FilterMembers(c, IsOtherLine);
    } else {
      var sane := Filter(Filter(c, IsRepoCandidate), HasFiveFields);
      SaneMembers(c);
      assert x in sane;
      var i :| 0 <= i < |sane| && sane[i] == x;
      assert Entries(c, id, op)[i] == x;
    }
  }

  /** Remove keeps exactly the lines that neither start with the id prefix nor disable it, in order. */
  lemma RemoveKeepsTheRest(c: seq<string>, id: string)
    ensures SaveTransform(c, id, Remove) ==
      Filter(c, x => !StartsWith(x, IdPrefix(id)) && !(IsDisabledMarker(x) && Contains(x, IdPrefix(id))))
    ensures forall x :: x in SaveTransform(c, id, Remove) ==> !StartsWith(x, IdPrefix(id))
  {
    var both := x => !StartsWith(x, IdPrefix(id)) && !(IsDisabledMarker(x) && Contains(x, IdPrefix(id)));
    FilterFilter(c, NotIdLine(id), NotDisabledIdLine(id), both);
    FilterMembers(c, both);
  }

  /**
   * Add: the lines that are not entries come first, in their original order (minus those
   * starting with the id prefix); then the surviving five-field entries, each taken from the old
   * file, none of them an entry or a disabled entry of the id; the new entry is the last line.
   */
  lemma AddShape(c: seq<string>, id: string, line: string)
    ensures var out := SaveTransform(c, id, Add(line));
      var others := Filter(c, x => !StartsWith(x, IdPrefix(id)) && IsOtherLine(x));
      |out| >= |others| + 1 && out[|out| - 1] == line && out[..|others|] == others &&
      forall x :: x in out[|others|..|out| - 1] ==>
        x in c && IsRepoCandidate(x) && HasFiveFields(x) &&
        !StartsWith(x, IdPrefix(id)) && !(StartsWith(x, "#") && Contains(x, IdPrefix(id)))
  {
    var pre := Filter(c, NotIdLine(id));
    FilterFilter(c, NotIdLine(id), IsOtherLine, x => !StartsWith(x, IdPrefix(id)) && IsOtherLine(x));
    var others := Filter(pre, IsOtherLine);
    var kept := Filter(Entries(pre, id, Add(line)), NotCommentedIdLine(id));
    var out := SaveTransform(c, id, Add(line));
    assert out == others + kept + [line];
    assert out[|others|..|out| - 1] == kept;
    assert out[..|others|] == others;
    forall x | x in kept
      ensures x in c && IsRepoCandidate(x) && HasFiveFields(x) && !StartsWith(x, IdPrefix(id))
      ensures !(StartsWith(x, "#") && Contains(x, IdPrefix(id)))
    {
      AddKeptFromFile(c, id, line, x);
    }
  }

  /** An entry add keeps is a five-field entry of the old file, neither of the id nor a commented copy of it. */
  lemma AddKeptFromFile(c: seq<string>, id: string, line: string, x: string)
    requires x in Filter(Entries(Filter(c, NotIdLine(id)), id, Add(line)), NotCommentedIdLine(id))
    ensures x in c && IsRepoCandidate(x) && HasFiveFields(x) && !StartsWith(x, IdPrefix(id))
    ensures !(StartsWith(x, "#") && Contains(x, IdPrefix(id)))
  {
    var pre := Filter(c, NotIdLine(id));
    var entries := Entries(pre, id, Add(line));
    var sane := Filter(Filter(pre, IsRepoCandidate), HasFiveFields);
    FilterMembers(entries, NotCommentedIdLine(id));
    var i :| 0 <= i < |entries| && entries[i] == x;
    assert x == sane[i];
    SaneMembers(pre);
    FilterMembers(c, NotIdLine(id));
  }

  /** Add keeps every well-formed entry of another id that is not a disabled copy of the new id. */
  lemma AddKeepsOtherEntries(c: seq<string>, id: string, line: string, x: string)
    requires x in c && IsRepoCandidate(x) && HasFiveFields(x)
    requires !StartsWith(x, IdPrefix(id)) && !(StartsWith(x, "#") && Contains(x, IdPrefix(id)))
    ensures x in SaveTransform(c, id, Add(line))
  {
    var pre := Filter(c, NotIdLine(id));
    var sane := Filter(Filter(pre, IsRepoCandidate), HasFiveFields);
    FilterMembers(c, NotIdLine(id));
    SaneMembers(pre);
    assert x in sane;
    var i :| 0 <= i < |sane| && sane[i] == x;
    var entries := Entries(pre, id, Add(line));
    assert entries[i] == x;
    FilterMembers(entries, NotCommentedIdLine(id));
  }

  /** Add drops every entry line that does not split into exactly five fields. */
  lemma AddDropsMalformed(c: seq<string>, id: string, line: string, x: string)
    requires IsRepoCandidate(x) && !HasFiveFields(x) && x != line
    ensures x !in SaveTransform(c, id, Add(line))
  {
    var pre := Filter(c, NotIdLine(id));
    var sane := Filter(Filter(pre, IsRepoCandidate), HasFiveFields);
    var entries := Entries(pre, id, Add(line));
    SaneMembers(pre);
    forall i | 0 <= i < |entries| ensures entries[i] != x {
      assert entries[i] == sane[i];
      assert sane[i] in sane;
    }
    FilterMembers(entries, NotCommentedIdLine(id));
    FilterMembers(pre, IsOtherLine);
  }

  // ---- the entry line written by add ----

  /** The fields of an entry as the add path receives them. */
  datatype EntryData = EntryData(
    repoid: string,
    description: string,
    plainPackages: seq<string>,
    plainDatabase: string,
    dbcformat: string,
    servicePort: int,
    sslServicePort: int)

  /** `"repository|%s|%s|%s|%s#%s#%s,%s"`, the mirrors joined by single spaces. */
  function FormatEntry(d: EntryData): string {
    RepositoryPrefix + d.repoid + "|" + d.description + "|" + Join(d.plainPackages, " ") + "|" +
      DatabaseField(d)
  }

  function DatabaseField(d: EntryData): string {
    d.plainDatabase + "#" + d.dbcformat + "#" + IntToString(d.servicePort) + "," + IntToString(d.sslServicePort)
  }

  predicate NoBar(s: string) {
    '|' !in s
  }

  lemma {:induction false} JoinNoBar(ws: seq<string>)
    requires forall i :: 0 <= i < |ws| ==> NoBar(ws[i])
    ensures NoBar(Join(ws, " "))
  {
    if |ws| > 1 {
      JoinNoBar(ws[1..]);
    }
  }

  lemma IntToStringNoBar(i: int)
    ensures NoBar(IntToString(i))
  {
    var s := IntToString(i);
    if i >= 0 {
      assert forall j :: 0 <= j < |s| ==> IsDigit(s[j]);
    } else {
      var n := NatToString(-i);
      assert forall j :: 0 <= j < |n| ==> IsDigit(n[j]);
      assert s == "-" + n;
    }
  }

  /** The fields of a well-formed entry, as `x.split("|")` returns them. */
  lemma {:induction false} FormatEntryFields(d: EntryData)
    requires NoBar(d.repoid) && NoBar(d.description) && NoBar(d.plainDatabase) && NoBar(d.dbcformat)
    requires forall i :: 0 <= i < |d.plainPackages| ==> NoBar(d.plainPackages[i])
    ensures Split(FormatEntry(d), '|') ==
      ["repository", d.repoid, d.description, Join(d.plainPackages, " "), DatabaseField(d)]
  {
    JoinNoBar(d.plainPackages);
    IntToStringNoBar(d.servicePort);
    IntToStringNoBar(d.sslServicePort);
    var parts := ["repository", d.repoid, d.description, Join(d.plainPackages, " "), DatabaseField(d)];
    assert parts[4..] == [DatabaseField(d)];
    assert Join(parts[3..], "|") == Join(d.plainPackages, " ") + "|" + DatabaseField(d);
    assert Join(parts[2..], "|") == d.description + "|" + Join(parts[3..], "|");
    assert Join(parts[1..], "|") == d.repoid + "|" + Join(parts[2..], "|");
    assert FormatEntry(d) == Join(parts, "|");
    SplitJoin(parts, '|');
  }

  /** The entry written by add is recognised as the id's own entry by every later rewrite. */
  lemma FormatEntryIsEntry(d: EntryData)
    requires NoBar(d.repoid) && NoBar(d.description) && NoBar(d.plainDatabase) && NoBar(d.dbcformat)
    requires forall i :: 0 <= i < |d.plainPackages| ==> NoBar(d.plainPackages[i])
    ensures IsRepoCandidate(FormatEntry(d)) && HasFiveFields(FormatEntry(d))
    ensures FieldOne(FormatEntry(d)) == d.repoid
    ensures StartsWith(FormatEntry(d), IdPrefix(d.repoid))
  {
    FormatEntryFields(d);
    var line := FormatEntry(d);
    assert line[..|RepositoryPrefix|] == RepositoryPrefix;
    assert line[..|IdPrefix(d.repoid)|] == IdPrefix(d.repoid);
  }

  // ---- the ordered rewrite ----

  /** The lines the ordered rewrite treats as entries: enabled and five-field. */
  predicate IsOrderedEntry(x: string) {
    StartsWith(x, RepositoryPrefix) && HasFiveFields(x)
  }

  predicate NotOrderedEntry(x: string) {
    !IsOrderedEntry(x)
  }

  function IdIs(id: string): string -> bool {
    x => FieldOne(x) == id
  }

  /** For each id of the order list in turn, the entries carrying that id. */
  function EntriesInOrder(repolines: seq<string>, order: seq<string>): seq<string> {
    if order == [] then [] else Filter(repolines, IdIs(order[0])) + EntriesInOrder(repolines, order[1..])
  }

  /** `__write_ordered_repositories_entries`: everything else first, then the entries by priority. */
  function OrderedEntries(content: seq<string>, order: seq<string>): seq<string> {
    Filter(content, NotOrderedEntry) + EntriesInOrder(Filter(content, IsOrderedEntry), order)
  }

  lemma {:induction false} EntriesInOrderMembers(repolines: seq<string>, order: seq<string>, x: string)
    ensures x in EntriesInOrder(repolines, order) <==> x in repolines && FieldOne(x) in order
    decreases |order|
  {
    if order != [] {
      EntriesInOrderMembers(repolines, order[1..], x);
      FilterMembers(repolines, IdIs(order[0]));
      assert FieldOne(x) in order <==> FieldOne(x) == order[0] || FieldOne(x) in order[1..];
    }
  }

  /**
   * The ordered rewrite keeps every line that is not an enabled five-field entry (comments,
   * disabled and malformed entries pass through) in its place at the front, keeps the entries
   * whose id is in the order list, and drops the entries whose id is not.
   */
  lemma OrderedEntriesShape(content: seq<string>, order: seq<string>)
    ensures var out := OrderedEntries(content, order);
      var others := Filter(content, NotOrderedEntry);
      |others| <= |out| && out[..|others|] == others &&
      forall x :: x in out <==> x in content && (!IsOrderedEntry(x) || FieldOne(x) in order)
  {
    var out := OrderedEntries(content, order);
    var others := Filter(content, NotOrderedEntry);
    assert out[..|others|] == others;
    FilterMembers(content, NotOrderedEntry);
    FilterMembers(content, IsOrderedEntry);
    forall x ensures x in out <==> x in content && (!IsOrderedEntry(x) || FieldOne(x) in order) {
      EntriesInOrderMembers(Filter(content, IsOrderedEntry), order, x);
    }
  }

  lemma {:induction false} EntriesInOrderAreEntries(repolines: seq<string>, order: seq<string>)
    requires forall x :: x in repolines ==> IsOrderedEntry(x)
    ensures forall x :: x in EntriesInOrder(repolines, order) ==> IsOrderedEntry(x)
  {
    forall x | x in EntriesInOrder(repolines, order) ensures IsOrderedEntry(x) {
      EntriesInOrderMembers(repolines, order, x);
    }
  }

  /** The entries of one id among the ordered entries are that id's entries, when ids occur once. */
  lemma {:induction false} EntriesOfOneId(repolines: seq<string>, order: seq<string>, id: string)
    requires forall i, j :: 0 <= i < j < |order| ==> order[i] != order[j]
    ensures Filter(EntriesInOrder(repolines, order), IdIs(id)) ==
      (if id in order then Filter(repolines, IdIs(id)) else [])
    decreases |order|
  {
    if order != [] {
      var first := Filter(repolines, IdIs(order[0]));
      FilterMembers(repolines, IdIs(order[0]));
      EntriesOfOneId(repolines, order[1..], id);
      FilterAppend(first, EntriesInOrder(repolines, order[1..]), IdIs(id));
      if order[0] == id {
        FilterKeepsAll(first, IdIs(id));
        assert id !in order[1..];
      } else {
        FilterDropsAll(first, IdIs(id));
      }
    }
  }

  lemma {:induction false} EntriesInOrderStable(repolines: seq<string>, order: seq<string>, rest: seq<string>)
    requires forall i, j :: 0 <= i < j < |order| ==> order[i] != order[j]
    requires forall i :: 0 <= i < |rest| ==> rest[i] in order
    ensures EntriesInOrder(EntriesInOrder(repolines, order), rest) == EntriesInOrder(repolines, rest)
    decreases |rest|
  {
    if rest != [] {
      EntriesOfOneId(repolines, order, rest[0]);
      EntriesInOrderStable(repolines, order, rest[1..]);
    }
  }

  lemma OrderedParts(others: seq<string>, entries: seq<string>)
    requires forall x :: x in others ==> !IsOrderedEntry(x)
    requires forall x :: x in entries ==> IsOrderedEntry(x)
    ensures Filter(others + entries, NotOrderedEntry) == others
    ensures Filter(others + entries, IsOrderedEntry) == entries
  {
    FilterAppend(others, entries, NotOrderedEntry);
    FilterKeepsAll(others, NotOrderedEntry);
    FilterDropsAll(entries, NotOrderedEntry);
    FilterAppend(others, entries, IsOrderedEntry);
    FilterDropsAll(others, IsOrderedEntry);
    FilterKeepsAll(entries, IsOrderedEntry);
  }

  /** Rewriting an already ordered file with the same (duplicate-free) order changes nothing. */
  lemma OrderedEntriesIdempotent(content: seq<string>, order: seq<string>)
    requires forall i, j :: 0 <= i < j < |order| ==> order[i] != order[j]
    ensures OrderedEntries(OrderedEntries(content, order), order) == OrderedEntries(content, order)
  {
    var others := Filter(content, NotOrderedEntry);
    var repolines := Filter(content, IsOrderedEntry);
    var entries := EntriesInOrder(repolines, order);
    FilterMembers(content, NotOrderedEntry);
    FilterMembers(content, IsOrderedEntry);
    EntriesInOrderAreEntries(repolines, order);
    OrderedParts(others, entries);
    EntriesInOrderStable(repolines, order, order);
  }
}
