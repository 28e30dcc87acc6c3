/**
 * The repository forms of the Spritz front end: the checks `__validateRepoSubmit` makes on a
 * repository before it is added, the parsing of a pasted `repository|...` identification
 * string, and the URL check on a new download mirror.
 */
module SpritzForms {
  import opened Wrappers
  import opened Text
  import opened Seqs
  import opened RepoLines

  const NoIdentifier: string := "No Repository Identifier"
  const Duplicated: string := "Duplicated Repository Identifier"
  const NoMirrors: string := "No download mirrors"
  const BadDatabaseUrl: string := "Database URL must start either with http:// or ftp:// or file://"
  const NoDescription: string := "No description"

  /** The order in which the checks run, and so the order of the error messages. */
  const CheckOrder: seq<string> := [NoIdentifier, Duplicated, NoMirrors, BadDatabaseUrl]

  /** `etpConst['etpdatabasesupportedcformats']`. */
  const SupportedFormats: seq<string> := ["bz2", "gz"]

  /** An accepted URL scheme for a mirror or the database. */
  predicate UrlAccepted(url: string) {
    StartsWith(url, "http://") || StartsWith(url, "ftp://") || StartsWith(url, "file://")
  }

  // ---- __validateRepoSubmit ----

  /** Whether each check raises its message. */
  predicate Raised(repoid: string, packages: seq<string>, database: string, existing: set<string>,
                   edit: bool, msg: string) {
    (msg == NoIdentifier && repoid == []) ||
    (msg == Duplicated && repoid != [] && repoid in existing && !edit) ||
    (msg == NoMirrors && packages == []) ||
    (msg == BadDatabaseUrl && (database == [] || !UrlAccepted(database)))
  }

  function RaisedBy(repoid: string, packages: seq<string>, database: string, existing: set<string>,
                    edit: bool): string -> bool {
    msg => Raised(repoid, packages, database, existing, edit, msg)
  }

  /**
   * The error list of `__validateRepoSubmit`: no identifier; an identifier already in
   * `etpRepositories`, unless editing; no mirrors; a database URL that is empty or has another
   * scheme. An empty description is not an error.
   */
  function ValidationErrors(repoid: string, packages: seq<string>, database: string, existing: set<string>,
                            edit: bool): seq<string>
  {
    (if repoid == [] then [NoIdentifier] else []) +
    (if repoid != [] && repoid in existing && !edit then [Duplicated] else []) +
    (if packages == [] then [NoMirrors] else []) +
    (if database == [] || !UrlAccepted(database) then [BadDatabaseUrl] else [])
  }

  /** Each message is reported exactly when its check fails, and the form passes exactly when none does. */
  lemma ValidationErrorsCases(repoid: string, packages: seq<string>, database: string, existing: set<string>,
                              edit: bool)
    ensures var errors := ValidationErrors(repoid, packages, database, existing, edit);
      (NoIdentifier in errors <==> repoid == []) &&
      (Duplicated in errors <==> repoid != [] && repoid in existing && !edit) &&
      (NoMirrors in errors <==> packages == []) &&
      (BadDatabaseUrl in errors <==> !UrlAccepted(database)) &&
      (errors == [] <==> repoid != [] && (edit || repoid !in existing) && packages != [] && UrlAccepted(database))
  {
    assert |NoIdentifier| == 24 && |Duplicated| == 32 && |NoMirrors| == 19 && |BadDatabaseUrl| == 64;
  }

  /** The errors come in check order, each at most once. */
  lemma ErrorsInCheckOrder(repoid: string, packages: seq<string>, database: string, existing: set<string>, edit: bool)
    ensures ValidationErrors(repoid, packages, database, existing, edit) ==
      Filter(CheckOrder, RaisedBy(repoid, packages, database, existing, edit))
  {
    var p := RaisedBy(repoid, packages, database, existing, edit);
    FilterOfFour(NoIdentifier, Duplicated, NoMirrors, BadDatabaseUrl, p);
    assert p(NoIdentifier) == (repoid == []);
    assert p(Duplicated) == (repoid != [] && repoid in existing && !edit);
    assert p(NoMirrors) == (packages == []);
    assert p(BadDatabaseUrl) == (database == [] || !UrlAccepted(database));
  }

  /** The repository data dict the form hands to `__validateRepoSubmit`, which may rewrite its description. */
  class RepoSubmission {
    var repoid: string
    var description: string
    var plainPackages: seq<string>
    var plainDatabase: string
    var dbcformat: string

    constructor (repoid: string, description: string, plainPackages: seq<string>, plainDatabase: string,
                 dbcformat: string)
      ensures this.repoid == repoid && this.description == description && this.plainPackages == plainPackages
      ensures this.plainDatabase == plainDatabase && this.dbcformat == dbcformat
    {
      this.repoid := repoid;
      this.description := description;
      this.plainPackages := plainPackages;
      this.plainDatabase := plainDatabase;
      this.dbcformat := dbcformat;
    }

    /** `__validateRepoSubmit`: the error list, and an empty description becomes "No description". */
    method ValidateRepoSubmit(existing: set<string>, edit: bool) returns (errors: seq<string>)
      modifies this
      ensures errors == ValidationErrors(repoid, plainPackages, plainDatabase, existing, edit)
      ensures description == if old(description) == [] then NoDescription else old(description)
      ensures repoid == old(repoid) && plainPackages == old(plainPackages)
      ensures plainDatabase == old(plainDatabase) && dbcformat == old(dbcformat)
    {
      var id, packages, database := repoid, plainPackages, plainDatabase;
      errors := [];
      if id == [] {
        errors := errors + [NoIdentifier];
      }
      if id != [] && id in existing {
        if !edit {
          errors := errors + [Duplicated];
        }
      }
      if packages == [] {
        errors := errors + [NoMirrors];
      }
      if database == [] || !UrlAccepted(database) {
        errors := errors + [BadDatabaseUrl];
      }
      assert errors == ValidationErrors(id, packages, database, existing, edit);
      if description == [] {
        description := NoDescription;
      }
    }
  }

  // ---- on_repoMirrorAdd_clicked ----

  /** The mirrors list of the repository form. */
  class MirrorList {
    var mirrors: seq<string>

    constructor ()
      ensures mirrors == []
    {
      mirrors := [];
    }

    predicate AllAccepted()
      reads this
    {
      forall i :: 0 <= i < |mirrors| ==> UrlAccepted(mirrors[i])
    }

    /**
     * `on_repoMirrorAdd_clicked`: empty input is ignored; a URL with another scheme is refused
     * with a dialog (`refused`); any other is appended.
     */
    method AddMirror(text: string) returns (refused: bool)
      modifies this
      ensures refused <==> text != [] && !UrlAccepted(text)
      ensures mirrors == if text != [] && UrlAccepted(text) then old(mirrors) + [text] else old(mirrors)
      ensures old(AllAccepted()) ==> AllAccepted()
    {
      refused := false;
      if text != [] {
        if !(StartsWith(text, "http://") || StartsWith(text, "ftp://") || StartsWith(text, "file://")) {
          refused := true;
        } else {
          mirrors := mirrors + [text];
        }
      }
    }
  }

  // ---- on_repoInsert_clicked ----

  /**
   * The `repodata` dict `on_repoInsert_clicked` builds from the pasted string, under the keys
   * `repoid`, `description`, `packages`, `database` and `dbcformat`.
   */
  datatype ParsedRepo = ParsedRepo(repoid: string, description: string, packages: seq<string>,
                                   database: string, dbcformat: string)

  /** No input, a malformed string (the dialog), or the `repodata` dict handed to `__loadRepodata`. */
  datatype InsertOutcome = Ignored | Malformed | Loaded(data: ParsedRepo)

  /**
   * The database field up to the first `#` (all of it when there is none), and the text after
   * the last `#` as the format when it is a supported one, else the first supported format.
   */
  function ParseDatabaseField(field: string): (r: (string, string))
    ensures '#' !in r.0 && (r.0 == field || StartsWith(field, r.0 + "#"))
    ensures r.1 in SupportedFormats
    ensures r.1 == SupportedFormats[0] || r.1 == field || EndsWith(field, "#" + r.1)
  {
    SplitFirstPiece(field, '#');
    SplitLastPiece(field, '#');
    var pieces := Split(field, '#');
    var last := pieces[|pieces| - 1];
    (pieces[0], if last in SupportedFormats then last else SupportedFormats[0])
  }

  /** A supported format after the last `#` (or as the whole field) is the one the form gets. */
  lemma DatabaseFormatFromSuffix(field: string, format: string)
    requires format in SupportedFormats && '#' !in format
    requires field == format || EndsWith(field, "#" + format)
    ensures ParseDatabaseField(field).1 == format
  {
    if field == format {
      SplitNoSeparator(format, '#');
    } else {
      var w := field[..|field| - |format| - 1];
      assert field == w + ['#'] + format;
      SplitAfterLast(w, format, '#');
    }
  }

  /**
   * `on_repoInsert_clicked`: only a string that starts with `repository|` and splits into
   * exactly five `|` fields becomes a `repodata` dict: field 1 is the id, field 2 the
   * description, field 3 the mirrors separated by white space, field 4 the database URL and
   * format.
   */
  function ParseRepositoryLine(text: string): (r: InsertOutcome)
    ensures r == Ignored <==> text == []
    ensures r.Loaded? <==> StartsWith(text, RepositoryPrefix) && HasFiveFields(text)
    ensures r.Loaded? ==> r.data.repoid == Split(text, '|')[1] && r.data.description == Split(text, '|')[2]
    ensures r.Loaded? ==> r.data.packages == Words(Split(text, '|')[3])
    ensures r.Loaded? ==> (r.data.database, r.data.dbcformat) == ParseDatabaseField(Split(text, '|')[4])
    ensures r.Loaded? ==> '|' !in r.data.repoid && '#' !in r.data.database && r.data.dbcformat in SupportedFormats
  {
    if text == [] then Ignored
    else if StartsWith(text, RepositoryPrefix) && |Split(text, '|')| == 5 then
      var fields := Split(text, '|');
      var (database, format) := ParseDatabaseField(fields[4]);
      Loaded(ParsedRepo(fields[1], fields[2], Words(fields[3]), database, format))
    else Malformed
  }

  lemma IntToStringNoHash(i: int)
    ensures '#' !in IntToString(i) && IntToString(i)[0] != 'b' && IntToString(i)[0] != 'g'
  {
    var s := IntToString(i);
    if i >= 0 {
      assert forall j :: 0 <= j < |s| ==> IsDigit(s[j]);
    } else {
      var n := NatToString(-i);
      assert forall j :: 0 <= j < |n| ==> IsDigit(n[j]);
      assert s == "-" + n;
    }
  }

  /**
   * Pasting an entry the client wrote to the repositories file gives back a `repodata` dict
   * with its id, description, mirrors and database URL. The format is not given back: the
   * client's database field ends in `#port,sslport`, so the text after the last `#` is never a
   * supported format and the dict always gets the first supported format.
   */
  lemma {:induction false} ParseFormatEntry(d: EntryData)
    requires NoBar(d.repoid) && NoBar(d.description) && NoBar(d.plainDatabase) && NoBar(d.dbcformat)
    requires forall i :: 0 <= i < |d.plainPackages| ==> NoBar(d.plainPackages[i]) && IsWord(d.plainPackages[i])
    requires '#' !in d.plainDatabase && '#' !in d.dbcformat
    ensures ParseRepositoryLine(FormatEntry(d)) ==
      Loaded(ParsedRepo(d.repoid, d.description, d.plainPackages, d.plainDatabase, SupportedFormats[0]))
  {
    var line := FormatEntry(d);
    FormatEntryIsEntry(d);
    FormatEntryFields(d);
    assert StartsWith(line, RepositoryPrefix) by {
      assert line[..|RepositoryPrefix|] == IdPrefix(d.repoid)[..|RepositoryPrefix|];
    }
    WordsJoin(d.plainPackages);
    DatabaseFieldFallsBack(d);
    ParseLoaded(line);
  }

  /** A string with the prefix and five fields becomes the dict of its fields. */
  lemma ParseLoaded(text: string)
    requires StartsWith(text, RepositoryPrefix) && |Split(text, '|')| == 5
    ensures var fields := Split(text, '|');
      ParseRepositoryLine(text) == Loaded(ParsedRepo(fields[1], fields[2], Words(fields[3]),
        ParseDatabaseField(fields[4]).0, ParseDatabaseField(fields[4]).1))
  {
  }

  lemma DatabaseFieldFallsBack(d: EntryData)
    requires '#' !in d.plainDatabase && '#' !in d.dbcformat
    ensures ParseDatabaseField(DatabaseField(d)) == (d.plainDatabase, SupportedFormats[0])
  {
    IntToStringNoHash(d.servicePort);
    IntToStringNoHash(d.sslServicePort);
    var ports := IntToString(d.servicePort) + "," + IntToString(d.sslServicePort);
    assert '#' !in ports;
    assert DatabaseField(d) == d.plainDatabase + "#" + (d.dbcformat + "#" + ports);
    SplitPrefixed(d.plainDatabase, d.dbcformat + "#" + ports, '#');
    SplitPrefixed(d.dbcformat, ports, '#');
    SplitNoSeparator(ports, '#');
    assert Split(DatabaseField(d), '#') == [d.plainDatabase, d.dbcformat, ports];
    assert ports[0] == IntToString(d.servicePort)[0];
    assert ports !in SupportedFormats;
  }

  /** A line in the older `db#format` form loads its format back when it is supported. */
  lemma ParseDatabaseWithFormat(database: string, format: string)
    requires '#' !in database && '#' !in format && format in SupportedFormats
    ensures ParseDatabaseField(database + "#" + format) == (database, format)
  {
    SplitPrefixed(database, format, '#');
    SplitNoSeparator(format, '#');
  }
}
