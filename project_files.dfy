/**
  The per-session project file store of the editor's views (editor/views.py): a dict from
  file name to a record `{name, content, language}` kept in the session under
  `project_files`, which the views create, seed, list, read, add to, rename in, delete from
  and save into. Request bodies are given already parsed; responses are `Result` values
  carrying the HTTP status and message of each error.
 */
module ProjectFiles {
  import opened Strings

  datatype FileRecord = FileRecord(name: string, content: string, language: string)

  /** One entry of the file listing. */
  datatype Listed = Listed(name: string, language: string)

  datatype Result<T> = Ok(value: T) | Err(status: nat, message: string)

  /** Extensions and their languages, in the order `create_file` tries them. */
  const ExtensionLanguages: seq<(string, string)> :=
    [(".py", "python"), (".cpp", "cpp"), (".c", "c"), (".java", "java"),
     (".js", "javascript"), (".html", "html"), (".css", "css")]

  const DefaultLanguage: string := "python"

  /** The file `index` puts in a new project. */
  const MainFile: FileRecord :=
    FileRecord("main.py", "# Write your Python code here\nprint(\"Hello World!\")", "python")

  /** Entry `i` is the first of the table whose extension ends `filename`. */
  predicate FirstMatchAt(filename: string, i: int) {
    && 0 <= i < |ExtensionLanguages|
    && EndsWith(filename, ExtensionLanguages[i].0)
    && forall j :: 0 <= j < i ==> !EndsWith(filename, ExtensionLanguages[j].0)
  }

  predicate NoExtensionMatches(filename: string) {
    forall j :: 0 <= j < |ExtensionLanguages| ==> !EndsWith(filename, ExtensionLanguages[j].0)
  }

  /** The language of the first entry at or after `i` whose extension ends `filename`. */
  function LanguageFrom(filename: string, i: nat): (language: string)
    requires i <= |ExtensionLanguages|
    requires forall j :: 0 <= j < i ==> !EndsWith(filename, ExtensionLanguages[j].0)
    ensures || (exists k :: FirstMatchAt(filename, k) && language == ExtensionLanguages[k].1)
            || (NoExtensionMatches(filename) && language == DefaultLanguage)
    decreases |ExtensionLanguages| - i
  {
    if i == |ExtensionLanguages| then DefaultLanguage
    else if EndsWith(filename, ExtensionLanguages[i].0) then
      assert FirstMatchAt(filename, i);
      ExtensionLanguages[i].1
    else LanguageFrom(filename, i + 1)
  }

  /**
    The language `create_file` gives a new file: that of the first extension, in table order,
    the name ends with, and Python when none does.
   */
  function LanguageOf(filename: string): (language: string)
    ensures || (exists k :: FirstMatchAt(filename, k) && language == ExtensionLanguages[k].1)
            || (NoExtensionMatches(filename) && language == DefaultLanguage)
  {
    LanguageFrom(filename, 0)
  }

  /** Entries that do not match can be skipped. */
  lemma {:induction false} SkipUnmatched(filename: string, i: nat)
    requires i <= |ExtensionLanguages|
    requires forall j :: 0 <= j < i ==> !EndsWith(filename, ExtensionLanguages[j].0)
    ensures LanguageOf(filename) == LanguageFrom(filename, i)
  {
    if i > 0 {
      SkipUnmatched(filename, i - 1);
    }
  }

  /** The loop of `create_file` over the extension table, leaving at the first match. */
  method DetectLanguage(filename: string) returns (language: string)
    ensures language == LanguageOf(filename)
  {
    language := DefaultLanguage;
    var i := 0;
    while i < |ExtensionLanguages|
      invariant i <= |ExtensionLanguages|
      invariant forall j :: 0 <= j < i ==> !EndsWith(filename, ExtensionLanguages[j].0)
      invariant language == DefaultLanguage
    {
      var (ext, lang) := ExtensionLanguages[i];
      if EndsWith(filename, ext) {
        language := lang;
        break;
      }
      i := i + 1;
    }
    SkipUnmatched(filename, i);
  }

  /** A string ending with two suffixes ends, with the longer one, in the shorter one. */
  lemma SuffixOfSuffix(s: string, a: string, b: string)
    requires EndsWith(s, a) && EndsWith(s, b) && |a| <= |b|
    ensures EndsWith(b, a)
  {
    assert b[|b| - |a|..] == s[|s| - |a|..];
  }

  /** Every extension of the table is a '.' followed by at least one character other than '.'. */
  lemma ExtensionShape(i: int)
    requires 0 <= i < |ExtensionLanguages|
    ensures var e := ExtensionLanguages[i].0;
      |e| >= 2 && e[0] == '.' && forall m :: 1 <= m < |e| ==> e[m] != '.'
  {
  }

  lemma ExtensionsDistinct(i: int, j: int)
    requires 0 <= i < |ExtensionLanguages| && 0 <= j < |ExtensionLanguages| && i != j
    ensures ExtensionLanguages[i].0 != ExtensionLanguages[j].0
  {
  }

  /** A file name ending in one extension of the table ends in no other. */
  lemma OnlyOneExtension(filename: string, i: int, j: int)
    requires 0 <= i < |ExtensionLanguages| && 0 <= j < |ExtensionLanguages|
    requires EndsWith(filename, ExtensionLanguages[i].0)
    ensures i != j ==> !EndsWith(filename, ExtensionLanguages[j].0)
  {
    if i != j {
      var a, b := ExtensionLanguages[i].0, ExtensionLanguages[j].0;
      ExtensionShape(i);
      ExtensionShape(j);
      if |b| <= |filename| {
        var tail := filename[|filename| - |b|..];
        if |b| == |a| {
          ExtensionsDistinct(i, j);
          assert tail == a;
        } else if |b| < |a| {
          assert tail[0] == a[|a| - |b|];
          assert tail[0] != b[0];
        } else {
          assert tail[|b| - |a|] == a[0];
          assert tail[|b| - |a|] != b[|b| - |a|];
        }
      }
    }
  }

  /** Hence a file name matches at most one entry of the table. */
  lemma ExtensionsUnambiguous(filename: string, i: int, j: int)
    requires 0 <= i < |ExtensionLanguages| && 0 <= j < |ExtensionLanguages|
    requires EndsWith(filename, ExtensionLanguages[i].0) && EndsWith(filename, ExtensionLanguages[j].0)
    ensures i == j
  {
    OnlyOneExtension(filename, i, j);
  }

  /** So the order of the table does not matter: a name ending in an extension gets its language. */
  lemma LanguageByExtension(filename: string, i: int)
    requires 0 <= i < |ExtensionLanguages| && EndsWith(filename, ExtensionLanguages[i].0)
    ensures LanguageOf(filename) == ExtensionLanguages[i].1
  {
    var language := LanguageOf(filename);
    assert !NoExtensionMatches(filename);
    var k :| FirstMatchAt(filename, k) && language == ExtensionLanguages[k].1;
    ExtensionsUnambiguous(filename, i, k);
  }

  /** The record `create_file` makes for a new name. */
  function NewFile(name: string): FileRecord {
    var language := LanguageOf(name);
    FileRecord(name, "# New " + language + " file\n", language)
  }

  predicate Distinct(s: seq<string>) {
    forall i, j :: 0 <= i < j < |s| ==> s[i] != s[j]
  }

  /** `s` without `x`, the others in their order: the keys of a dict after `del`. */
  function Without(s: seq<string>, x: string): (r: seq<string>)
    ensures forall y :: y in r <==> y in s && y != x
    ensures Distinct(s) ==> Distinct(r)
    ensures Distinct(s) && x in s ==> |r| == |s| - 1
    ensures x !in s ==> r == s
  {
    if s == [] then []
    else
      var init, last := s[..|s| - 1], s[|s| - 1];
      assert s == init + [last];
      assert Distinct(s) ==> Distinct(init);
      var r := Without(init, x);
      if last == x then r
      else
        assert Distinct(s) ==> last !in r;
        r + [last]
  }

  /** Removing a key that occurs once cuts out exactly that position: the other keys keep their order. */
  lemma {:induction false} WithoutKeepsOrder(s: seq<string>, x: string, k: nat)
    requires Distinct(s) && k < |s| && s[k] == x
    ensures Without(s, x) == s[..k] + s[k + 1..]
    decreases |s|
  {
    var init, last := s[..|s| - 1], s[|s| - 1];
    assert s == init + [last];
    assert Distinct(init);
    if k == |s| - 1 {
      assert x !in init;
      assert s[..k] == init && s[k + 1..] == [];
    } else {
      assert last != x;
      WithoutKeepsOrder(init, x, k);
      assert s[..k] == init[..k];
      assert s[k + 1..] == init[k + 1..] + [last];
    }
  }

  /** The dict after moving the record of `oldName` to `newName` with its `name` updated. */
  function Renamed(files: map<string, FileRecord>, oldName: string, newName: string): map<string, FileRecord>
    requires oldName in files
  {
    (files - {oldName})[newName := files[oldName].(name := newName)]
  }

  /** A rename to a fresh name keeps the number of files and every other entry. */
  lemma RenamedKeepsOthers(files: map<string, FileRecord>, oldName: string, newName: string)
    requires oldName in files && newName !in files
    ensures var r := Renamed(files, oldName, newName);
      && |r| == |files|
      && r.Keys == files.Keys - {oldName} + {newName}
      && r[newName] == files[oldName].(name := newName)
      && forall k :: k in files && k != oldName ==> r[k] == files[k]
  {
    var r := Renamed(files, oldName, newName);
    assert (files - {oldName}).Keys == files.Keys - {oldName};
    assert |files.Keys - {oldName}| == |files.Keys| - 1;
    assert r.Keys == (files.Keys - {oldName}) + {newName};
    assert |r.Keys| == |files.Keys - {oldName}| + 1;
  }

  /** Renaming back restores the dict, when each record's `name` is its key. */
  lemma RenameRoundTrip(files: map<string, FileRecord>, oldName: string, newName: string)
    requires oldName in files && newName !in files
    requires files[oldName].name == oldName
    ensures Renamed(Renamed(files, oldName, newName), newName, oldName) == files
  {
    var back := Renamed(Renamed(files, oldName, newName), newName, oldName);
    assert back.Keys == files.Keys;
    forall k | k in files ensures back[k] == files[k] {
    }
  }

  /**
    The shape of a stored project: its keys listed once each in `order`, and each record
    named by its key.
   */
  ghost predicate Consistent(order: seq<string>, files: map<string, FileRecord>) {
    && Distinct(order)
    && (forall k :: k in files <==> k in order)
    && (forall k :: k in files ==> files[k].name == k)
  }

  /** Appending after a removal is removing after the append. */
  lemma WithoutAppend(s: seq<string>, y: string, x: string)
    requires x != y
    ensures Without(s + [y], x) == Without(s, x) + [y]
  {
    assert (s + [y])[..|s|] == s;
  }

  /** Removing a present key removes exactly one entry and keeps the project consistent. */
  lemma RemoveKeepsConsistent(order: seq<string>, files: map<string, FileRecord>, name: string)
    requires Consistent(order, files) && name in files
    ensures Consistent(Without(order, name), files - {name})
    ensures |files - {name}| == |files| - 1
  {
    assert (files - {name}).Keys == files.Keys - {name};
  }

  /** A rename to a fresh name keeps the project consistent. */
  lemma RenameKeepsConsistent(order: seq<string>, files: map<string, FileRecord>, oldName: string, newName: string)
    requires Consistent(order, files) && oldName in files && newName !in files
    ensures Consistent(Without(order, oldName) + [newName], Renamed(files, oldName, newName))
  {
    var rest := Without(order, oldName);
    assert newName !in rest;
    assert Distinct(rest + [newName]);
  }

  /** The dict after `save_file`: the content of an existing record, or a new Python record. */
  function Saved(files: map<string, FileRecord>, name: string, content: string): map<string, FileRecord> {
    if name in files then files[name := files[name].(content := content)]
    else files[name := FileRecord(name, content, DefaultLanguage)]
  }

  /** Saving twice is saving the second content once. */
  lemma SaveLastWins(files: map<string, FileRecord>, name: string, c1: string, c2: string)
    ensures Saved(Saved(files, name, c1), name, c2) == Saved(files, name, c2)
  {
  }

  /**
    The session's project. `hasProject` says whether `project_files` is in the session;
    `order` lists the dict's keys in insertion order, which is the order the listing shows.
   */
  class ProjectSession {
    var hasProject: bool
    var order: seq<string>
    var files: map<string, FileRecord>

    ghost predicate Valid()
      reads this
    {
      && (!hasProject ==> order == [] && files == map[])
      && Consistent(order, files)
    }

    /** A session that holds no project yet. */
    constructor ()
      ensures Valid() && !hasProject
    {
      hasProject, order, files := false, [], map[];
    }

    /** `get_file`: the stored record, read without changing anything. */
    function GetFile(filename: Option<string>): (r: Result<FileRecord>)
      reads this
      ensures (filename == None || filename == Some("")) ==> r == Err(400, "Filename required")
      ensures filename.Some? && filename.value != "" && !hasProject ==> r == Err(404, "No files found")
      ensures filename.Some? && filename.value != "" && hasProject && filename.value !in files ==>
        r == Err(404, "File not found")
      ensures r.Ok? <==> filename.Some? && filename.value != "" && hasProject && filename.value in files
      ensures r.Ok? ==> r.value == files[filename.value]
    {
      if filename.None? || filename.value == "" then Err(400, "Filename required")
      else if !hasProject then Err(404, "No files found")
      else if filename.value !in files then Err(404, "File not found")
      else Ok(files[filename.value])
    }

    /** `index`: seeds `main.py` only when the session holds no project. */
    method Index()
      requires Valid()
      modifies this
      ensures Valid() && hasProject
      ensures old(hasProject) ==> order == old(order) && files == old(files)
      ensures !old(hasProject) ==> order == [MainFile.name] && files == map[MainFile.name := MainFile]
    {
      if !hasProject {
        hasProject := true;
        files := map[MainFile.name := MainFile];
        order := [MainFile.name];
      }
    }

    /**
      `list_files`: one entry per stored file, in insertion order, with its language; creates
      an empty project first when there is none.
     */
    method ListFiles() returns (listing: seq<Listed>)
      requires Valid()
      modifies this
      ensures Valid() && hasProject
      ensures old(hasProject) ==> order == old(order) && files == old(files)
      ensures !old(hasProject) ==> order == [] && files == map[]
      ensures |listing| == |order|
      ensures forall i :: 0 <= i < |order| ==> listing[i] == Listed(order[i], files[order[i]].language)
    {
      if !hasProject {
        hasProject := true;
        files := map[];
        order := [];
      }
      var keys, stored := order, files;
      assert forall i :: 0 <= i < |keys| ==> keys[i] in stored;
      listing := seq(|keys|, i requires 0 <= i < |keys| => Listed(keys[i], stored[keys[i]].language));
    }

    /**
      `create_file`: refuses a name already present; otherwise adds, at the end, a record
      whose language follows the extension. A missing name is `untitled.py`.
     */
    method CreateFile(filename: Option<string>) returns (r: Result<FileRecord>)
      requires Valid()
      modifies this
      ensures Valid() && hasProject
      ensures var name := filename.GetOr("untitled.py");
        if name in old(files) then
          && r == Err(400, "File already exists")
          && files == old(files) && order == old(order)
        else
          && r == Ok(NewFile(name))
          && files == old(files)[name := NewFile(name)] && order == old(order) + [name]
          && |files| == |old(files)| + 1
          && (name != "" ==> GetFile(Some(name)) == Ok(NewFile(name)))
    {
      var name := filename.GetOr("untitled.py");
      if !hasProject {
        hasProject := true;
        files := map[];
        order := [];
      }
      if name in files {
        return Err(400, "File already exists");
      }
      var language := DetectLanguage(name);
      var record := FileRecord(name, "# New " + language + " file\n", language);
      files := files[name := record];
      order := order + [name];
      r := Ok(record);
    }

    /**
      `rename_file`: moves a record to a name not yet used, updating its `name`; the new
      name goes to the end of the order. Errors leave the project as it was.
     */
    method RenameFile(oldName: string, newName: string) returns (r: Result<string>)
      requires Valid()
      modifies this
      ensures Valid() && hasProject == old(hasProject)
      ensures !hasProject ==> r == Err(404, "No files found")
      ensures hasProject && oldName !in old(files) ==> r == Err(404, "File not found")
      ensures hasProject && oldName in old(files) && newName in old(files) ==>
        r == Err(400, "File with new name already exists")
      ensures r.Err? ==> files == old(files) && order == old(order)
      ensures r.Ok? <==> hasProject && oldName in old(files) && newName !in old(files)
      ensures r.Ok? ==>
        && r.value == "File renamed successfully"
        && files == Renamed(old(files), oldName, newName)
        && order == Without(old(order), oldName) + [newName]
        && |files| == |old(files)|
    {
      if !hasProject {
        r := Err(404, "No files found");
      } else if oldName !in files {
        r := Err(404, "File not found");
      } else if newName in files {
        r := Err(400, "File with new name already exists");
      } else {
        RenameKeepsConsistent(order, files, oldName, newName);
        WithoutAppend(order, newName, oldName);
        var moved := files[newName := files[oldName].(name := newName)];
        assert moved - {oldName} == Renamed(files, oldName, newName);
        files, order := moved - {oldName}, Without(order + [newName], oldName);
        r := Ok("File renamed successfully");
      }
    }

    /**
      `delete_file`: removes one present file, but never the last one. Errors leave the
      project as it was.
     */
    method DeleteFile(filename: string) returns (r: Result<string>)
      requires Valid()
      modifies this
      ensures Valid() && hasProject == old(hasProject)
      ensures !hasProject ==> r == Err(404, "No files found")
      ensures hasProject && filename !in old(files) ==> r == Err(404, "File not found")
      ensures hasProject && filename in old(files) && |old(files)| == 1 ==>
        r == Err(400, "Cannot delete the last file")
      ensures r.Err? ==> files == old(files) && order == old(order)
      ensures r.Ok? <==> hasProject && filename in old(files) && |old(files)| != 1
      ensures r.Ok? ==> r.value == "File deleted successfully"
      ensures r.Ok? ==> files == old(files) - {filename} && order == Without(old(order), filename)
      ensures r.Ok? ==> |files| == |old(files)| - 1 && |files| >= 1
    {
      if !hasProject {
        r := Err(404, "No files found");
      } else if filename !in files {
        r := Err(404, "File not found");
      } else if |files| == 1 {
        r := Err(400, "Cannot delete the last file");
      } else {
        RemoveKeepsConsistent(order, files, filename);
        files, order := files - {filename}, Without(order, filename);
        r := Ok("File deleted successfully");
      }
    }

    /**
      `save_file`: replaces only the content of an existing record, or adds a Python record
      at the end; creates an empty project first when there is none. A missing content is
      the empty string.
     */
    method SaveFile(filename: string, content: Option<string>) returns (r: Result<string>)
      requires Valid()
      modifies this
      ensures Valid() && hasProject
      ensures r == Ok("File saved")
      ensures files == Saved(old(files), filename, content.GetOr(""))
      ensures order == if filename in old(files) then old(order) else old(order) + [filename]
      ensures filename != "" ==> GetFile(Some(filename)).Ok? && GetFile(Some(filename)).value.content == content.GetOr("")
    {
      var text := content.GetOr("");
      if !hasProject {
        hasProject := true;
        files := map[];
        order := [];
      }
      if filename in files {
        files := files[filename := files[filename].(content := text)];
      } else {
        files := files[filename := FileRecord(filename, text, DefaultLanguage)];
        order := order + [filename];
      }
      r := Ok("File saved");
    }
  }
}
