/**
 * The repositories configuration file (`etpConst['repositoriesconf']`) as the client rewrites
 * it: read as stripped lines, transformed, written to a temporary file and renamed over the
 * original, so that a rewrite replaces the whole contents at once or not at all.
 */
module RepoConf {
  import opened Wrappers
  import opened Text
  import opened Seqs
  import opened RepoLines

  /** What `__save_repository_settings` reports: nothing for package-file ids, else the write's outcome. */
  datatype SaveStatus = Skipped | Written | WriteFailed

  /** `[x.strip() for x in f.readlines()]` when the file exists, `[]` when it does not. */
  function StrippedContent(file: Option<seq<string>>): seq<string> {
    if file.None? then [] else MapSeq(file.value, Strip)
  }

  /** The file after a save that was attempted (`write`), or left alone when not attempted. */
  function AfterSave(lines: Option<seq<string>>, id: string, op: SaveOp, write: bool): Option<seq<string>> {
    if write && !EndsWith(id, PackagesExtension) then Some(SaveTransform(StrippedContent(lines), id, op)) else lines
  }

  function AfterOrderedWrite(lines: Option<seq<string>>, order: seq<string>, writable: bool): Option<seq<string>> {
    if writable then Some(OrderedEntries(StrippedContent(lines), order)) else lines
  }

  class RepositoriesConf {
    /** The file's lines, or `None` while the file does not exist. */
    var lines: Option<seq<string>>

    constructor (initial: Option<seq<string>>)
      ensures lines == initial
    {
      lines := initial;
    }

    /**
     * Writing `content` one line at a time to a temporary file and renaming it over the file.
     * `writable` is the file system's answer; when it refuses, the file keeps its old contents.
     */
    method WriteLines(content: seq<string>, writable: bool) returns (ok: bool)
      modifies this
      ensures ok == writable
      ensures lines == if writable then Some(content) else old(lines)
    {
      ok := writable;
      if writable {
        lines := Some(content);
      }
    }

    /**
     * `__save_repository_settings`: a package-file id leaves the file alone; otherwise the new
     * contents are the save rewrite of the old stripped lines, written atomically; an
     * `OSError`/`IOError` during the write is reported as `WriteFailed` (the source's `False`).
     */
    method SaveRepositorySettings(id: string, op: SaveOp, writable: bool) returns (status: SaveStatus)
      modifies this
      ensures EndsWith(id, PackagesExtension) ==> status == Skipped && lines == old(lines)
      ensures !EndsWith(id, PackagesExtension) && writable ==>
        status == Written && lines == Some(SaveTransform(StrippedContent(old(lines)), id, op))
      ensures !EndsWith(id, PackagesExtension) && !writable ==>
        status == WriteFailed && lines == old(lines)
    {
      if EndsWith(id, PackagesExtension) {
        return Skipped;
      }
      var content := StrippedContent(lines);
      content := SaveContent(content, id, op);
      var ok := WriteLines(content, writable);
      status := if ok then Written else WriteFailed;
    }

    /**
     * `__write_ordered_repositories_entries`: the reorder rewrite of the old stripped lines.
     * The source does not catch write errors, so `ok == false` stands for the raised exception.
     */
    method WriteOrderedRepositoriesEntries(order: seq<string>, writable: bool) returns (ok: bool)
      modifies this
      ensures ok == writable
      ensures lines == if writable then Some(OrderedEntries(StrippedContent(old(lines)), order)) else old(lines)
    {
      var content := StrippedContent(lines);
      var repolines := Filter(content, IsOrderedEntry);
      content := Filter(content, NotOrderedEntry);
      var i := 0;
      assert order[0..] == order;
      while i < |order|
        invariant i <= |order|
        invariant lines == old(lines)
        invariant content + EntriesInOrder(repolines, order[i..]) ==
          OrderedEntries(StrippedContent(old(lines)), order)
      {
        var picked := PickId(repolines, order[i]);
        assert order[i..][1..] == order[i + 1..];
        assert EntriesInOrder(repolines, order[i..]) == picked + EntriesInOrder(repolines, order[i + 1..]);
        content := content + picked;
        i := i + 1;
      }
      assert order[i..] == [];
      assert content + EntriesInOrder(repolines, order[i..]) == content;
      assert content == OrderedEntries(StrippedContent(old(lines)), order);
      ok := WriteLines(content, writable);
    }
  }

  /** The inner loop of the reorder: the entries whose field 1 is `id`, in file order. */
  method PickId(repolines: seq<string>, id: string) returns (picked: seq<string>)
    ensures picked == Filter(repolines, IdIs(id))
  {
    picked := [];
    var j := 0;
    while j < |repolines|
      invariant j <= |repolines|
      invariant picked == Filter(repolines[..j], IdIs(id))
    {
      assert repolines[..j + 1] == repolines[..j] + [repolines[j]];
      FilterSnoc(repolines[..j], repolines[j], IdIs(id));
      if FieldOne(repolines[j]) == id {
        picked := picked + [repolines[j]];
      }
      j := j + 1;
    }
    assert repolines[..j] == repolines;
  }

  /** A line with no white space at either end, as `strip` leaves every line it reads. */
  predicate IsStrippedLine(x: string) {
    x == [] || (!IsSpace(x[0]) && !IsSpace(x[|x| - 1]))
  }

  predicate AllStripped(s: seq<string>) {
    forall x :: x in s ==> IsStrippedLine(x)
  }

  /** Re-reading a file the client wrote gives its lines back, as long as they were stripped. */
  lemma StrippedOfStripped(s: seq<string>)
    requires AllStripped(s)
    ensures StrippedContent(Some(s)) == s
  {
    var r := MapSeq(s, Strip);
    assert |r| == |s|;
    forall i | 0 <= i < |s| ensures r[i] == s[i] {
      StrippedLine(s, i);
    }
    assert r == s;
  }

  lemma StrippedLine(s: seq<string>, i: int)
    requires AllStripped(s) && 0 <= i < |s|
    ensures Strip(s[i]) == s[i]
  {
    assert s[i] in s;
    StripOfStripped(s[i]);
  }

  lemma DisabledEntriesStripped(c: seq<string>, id: string)
    requires AllStripped(c)
    ensures AllStripped(Entries(c, id, Disable))
  {
    var sane := Filter(Filter(c, IsRepoCandidate), HasFiveFields);
    var entries := Entries(c, id, Disable);
    FilterMembers(c, IsRepoCandidate);
    FilterMembers(Filter(c, IsRepoCandidate), HasFiveFields);
    forall i | 0 <= i < |entries| ensures IsStrippedLine(entries[i]) {
      assert sane[i] in sane;
      StrippedToggle(id, sane[i]);
    }
  }

  lemma StrippedToggle(id: string, x: string)
    requires IsStrippedLine(x) && IsRepoCandidate(x)
    ensures IsStrippedLine(Toggle(Disable, id, x))
  {
    assert |x| > 0 by {
      assert StartsWith(x, RepositoryPrefix) || StartsWith(x, "#");
    }
    var y := "#" + x;
    assert y[|y| - 1] == x[|x| - 1];
  }

  /** Disabling writes only stripped lines when it reads stripped lines. */
  lemma DisableKeepsStripped(c: seq<string>, id: string)
    requires AllStripped(c)
    ensures AllStripped(SaveTransform(c, id, Disable))
  {
    var entries := Entries(c, id, Disable);
    DisabledEntriesStripped(c, id);
    var others := Filter(c, IsOtherLine);
    FilterMembers(c, IsOtherLine);
    assert SaveTransform(c, id, Disable) == others + entries;
  }

  /**
   * Disabling the same repository twice leaves the file as the first disable wrote it: the
   * second save re-reads the written lines and rewrites them unchanged.
   */
  lemma DisableTwiceSameFile(c: seq<string>, id: string)
    requires AllStripped(c)
    ensures SaveTransform(StrippedContent(Some(SaveTransform(c, id, Disable))), id, Disable) ==
      SaveTransform(c, id, Disable)
  {
    DisableKeepsStripped(c, id);
    StrippedOfStripped(SaveTransform(c, id, Disable));
    DisableIdempotent(c, id);
  }
}
