// scripts/gen_compile_commands.py: turning the kernel's .cmd files into
// compile_commands.json entries. The file system is a map from the path
// strings the script opens to their text, and `ar -t` is a map from an
// archive to its output. A Python exception that ends the script is a
// Crash naming its cause.
module CompileCommands {
  import opened Wrappers
  import opened PyStr

  type Fs = map<Str, Str>

  /** One compile_commands.json entry. */
  datatype Entry = Entry(directory: Str, file: Str, command: Str)

  /** Why the script stops with a traceback. */
  datatype Failure =
    | NameError(name: Str)
    | FileNotFound(path: Str)
    | ArFailed(archive: Str)
    | InvalidLogLevel(level: Str)

  datatype Outcome<T> = Ok(value: T) | Crash(failure: Failure)

  const ValidLogLevels: seq<Str> := ["DEBUG", "INFO", "WARNING", "ERROR", "CRITICAL"]

  // ---------------------------------------------------------------------
  // parse_arguments
  // ---------------------------------------------------------------------

  /** parse_arguments after argparse: an unknown log level is a ValueError;
      without -o (or with an empty one) the default path is joined to
      `directory`, a name the function never defines. */
  function ParseArguments(logLevel: Str, output: Option<Str>): (r: Outcome<Str>)
    ensures r.Ok? <==> logLevel in ValidLogLevels && output.Some? && output.value != []
    ensures r.Ok? ==> r.value == output.value
    ensures logLevel !in ValidLogLevels ==> r == Crash(InvalidLogLevel(logLevel))
  {
    if logLevel !in ValidLogLevels then Crash(InvalidLogLevel(logLevel))
    else if output.None? || output.value == [] then Crash(NameError("directory"))
    else Ok(output.value)
  }

  // ---------------------------------------------------------------------
  // _LINE_PATTERN: ^cmd_[^ ]*\.o := (.* )([^ ]*\.c)$
  // ---------------------------------------------------------------------

  /** What the pattern must match in full: `$` also matches before a final
      newline. */
  function Body(line: Str): Str
  {
    if EndsWith(line, "\n") then line[..|line| - 1] else line
  }

  /** The index of the first space of s, or |s|. */
  function FirstSpace(s: Str): (n: nat)
    ensures n <= |s|
    ensures forall k :: 0 <= k < n ==> s[k] != ' '
    ensures n < |s| ==> s[n] == ' '
  {
    if s == [] || s[0] == ' ' then 0 else 1 + FirstSpace(s[1..])
  }

  /** line_matcher.match(line): the two groups, or None. The target name
      holds no space, so the first space opens " := "; group 2 holds no
      space and group 1 ends with one, so group 1 ends at the last space. */
  function MatchLine(line: Str): Option<(Str, Str)>
  {
    var b := Body(line);
    var p := FirstSpace(b);
    var q := Rfind(b, ' ');
    if StartsWith(b, "cmd_") && p >= 6 && b[p - 2..p] == ".o" && p + 4 <= |b|
       && b[p..p + 4] == " := " && q >= p + 4 && '\n' !in b[p + 4..q + 1] && EndsWith(b[q + 1..], ".c")
    then Some((b[p + 4..q + 1], b[q + 1..]))
    else None
  }

  /** The pattern, stated as the shape of the line: "cmd_", a target name
      without spaces, ".o := ", group 1 (anything but a newline, ending in
      a space), group 2 (no space, ending in ".c"). */
  ghost predicate Matches(line: Str, x: Str, g1: Str, g2: Str)
  {
    && Body(line) == "cmd_" + x + ".o := " + g1 + g2
    && ' ' !in x
    && g1 != [] && g1[|g1| - 1] == ' ' && '\n' !in g1
    && ' ' !in g2 && EndsWith(g2, ".c")
  }

  /** Every match has that shape. */
  lemma MatchLineSound(line: Str)
    requires MatchLine(line).Some?
    ensures var (g1, g2) := MatchLine(line).value;
      Matches(line, Body(line)[4..FirstSpace(Body(line)) - 2], g1, g2)
  {
    MatchShape(line);
    MatchGroups(line);
  }

  /** A matched line is "cmd_", the target name, ".o := " and the groups. */
  lemma MatchShape(line: Str)
    requires MatchLine(line).Some?
    ensures var b, p := Body(line), FirstSpace(Body(line));
      p >= 6 && b == "cmd_" + b[4..p - 2] + ".o := " + MatchLine(line).value.0 + MatchLine(line).value.1
  {
    var b := Body(line);
    var p := FirstSpace(b);
    var q := Rfind(b, ' ');
    assert b[p - 2..p + 4] == ".o := " by {
      assert b[p - 2..p + 4] == b[p - 2..p] + b[p..p + 4];
    }
    Pieces(b, 4, p - 2, p + 4, q + 1);
  }

  /** In a matched line the target name and group 2 hold no space, and
      group 1 ends with one. */
  lemma MatchGroups(line: Str)
    requires MatchLine(line).Some?
    ensures var b, p := Body(line), FirstSpace(Body(line));
      var (g1, g2) := MatchLine(line).value;
      && p >= 6 && ' ' !in b[4..p - 2]
      && g1 != [] && g1[|g1| - 1] == ' ' && '\n' !in g1
      && ' ' !in g2 && EndsWith(g2, ".c")
  {
    var b := Body(line);
    var p := FirstSpace(b);
    var q := Rfind(b, ' ');
    NoSpaceIn(b, 4, p - 2);
    RfindNoneAfter(b, ' ');
    NoSpaceIn(b, q + 1, |b|);
  }

  lemma NoSpaceIn(b: Str, i: nat, j: nat)
    requires i <= j <= |b|
    requires forall k :: i <= k < j ==> b[k] != ' '
    ensures ' ' !in b[i..j]
  {
    forall k | 0 <= k < j - i
      ensures b[i..j][k] != ' '
    {
      assert b[i..j][k] == b[i + k];
    }
  }

  /** A sequence is the concatenation of its slices at i <= j <= k <= l. */
  lemma Pieces(b: Str, i: nat, j: nat, k: nat, l: nat)
    requires i <= j <= k <= l <= |b|
    ensures b == b[..i] + b[i..j] + b[j..k] + b[k..l] + b[l..]
  {
    assert b[..j] == b[..i] + b[i..j];
    assert b[..k] == b[..j] + b[j..k];
    assert b[..l] == b[..k] + b[k..l];
    assert b == b[..l] + b[l..];
  }

  /** Every line of that shape matches, with those groups. */
  lemma MatchLineComplete(line: Str, x: Str, g1: Str, g2: Str)
    requires Matches(line, x, g1, g2)
    ensures MatchLine(line) == Some((g1, g2))
  {
    var b := Body(line);
    var p := 4 + |x| + 2;
    var q := p + 3 + |g1|;
    assert b[..4] == "cmd_";
    assert b[p - 2..p] == ".o";
    assert b[p..p + 4] == " := ";
    assert FirstSpace(b) == p by {
      forall k | 0 <= k < p
        ensures b[k] != ' '
      {
        if 4 <= k < 4 + |x| {
          assert b[k] == x[k - 4];
        }
      }
      FirstSpaceAt(b, p);
    }
    assert Rfind(b, ' ') == q by {
      assert b[q] == g1[|g1| - 1];
      forall k | q < k < |b|
        ensures b[k] != ' '
      {
        assert b[k] == g2[k - q - 1];
      }
      RfindLast(b, ' ', q);
    }
    assert b[p + 4..q + 1] == g1;
    assert b[q + 1..] == g2;
  }

  lemma FirstSpaceAt(s: Str, p: nat)
    requires p < |s| && s[p] == ' ' && forall k :: 0 <= k < p ==> s[k] != ' '
    ensures FirstSpace(s) == p
  {
  }

  // ---------------------------------------------------------------------
  // process_line
  // ---------------------------------------------------------------------

  /** The two escapes of '#' that Make needs, undone. */
  function Unescape(prefix: Str): Str
  {
    Replace(Replace(prefix, "\\#", "#"), "$(pound)", "#")
  }

  /** How a command with '#' is written into a .cmd file. */
  function Escape(s: Str): Str
  {
    Replace(s, "#", "\\#")
  }

  /** process_line: the file must exist under the root. The error raised
      for a missing one names `file_directory`, which is undefined there,
      so a NameError escapes instead of the ValueError that main catches. */
  function ProcessLine(root: Str, prefix: Str, rel: Str, fs: Fs): Outcome<Entry>
  {
    if Join(root, rel) !in fs then Crash(NameError("file_directory"))
    else Ok(Entry(root, rel, Unescape(prefix) + rel))
  }

  /** An escaped string never starts with '#'. */
  lemma EscapeHead(s: Str)
    ensures Escape(s) == [] || Escape(s)[0] != '#'
  {
  }

  /** Undoing '\#' after escaping every '#' gives the string back. */
  lemma {:induction false} EscapeBack(s: Str)
    ensures Replace(Escape(s), "\\#", "#") == s
    decreases |s|
  {
    if s != [] {
      var e := Escape(s[1..]);
      EscapeBack(s[1..]);
      if s[0] == '#' {
        assert s[..1] == "#";
        assert Escape(s) == "\\#" + e;
        assert (Escape(s))[..2] == "\\#" && Escape(s)[2..] == e;
      } else {
        assert s[..1] != "#";
        assert Escape(s) == [s[0]] + e;
        EscapeHead(s[1..]);
        if |e| >= 1 {
          assert Escape(s)[..2][1] == e[0] != '#';
          assert Escape(s)[..2] != "\\#";
        }
        assert Escape(s)[1..] == e;
      }
      assert s == [s[0]] + s[1..];
    }
  }

  /** Unescaping inverts Make's escaping of '#' for a command in which
      "$(pound)" does not occur. */
  lemma UnescapeEscape(s: Str)
    requires !Occurs(s, "$(pound)")
    ensures Unescape(Escape(s)) == s
  {
    EscapeBack(s);
    ReplaceAbsent(s, "$(pound)", "#");
  }

  /** No "$(pound)" is left in an unescaped command. */
  lemma UnescapeNoPound(prefix: Str)
    ensures !Occurs(Unescape(prefix), "$(pound)")
  {
    ReplaceRemoves(Replace(prefix, "\\#", "#"), "$(pound)", "#");
  }

  /** An entry is made exactly when the file exists under the root; its
      command is the unescaped prefix followed by the file. */
  lemma ProcessLineEntry(root: Str, s: Str, rel: Str, fs: Fs)
    requires !Occurs(s, "$(pound)")
    ensures ProcessLine(root, Escape(s), rel, fs).Ok? <==> Join(root, rel) in fs
    ensures Join(root, rel) in fs ==> ProcessLine(root, Escape(s), rel, fs) == Ok(Entry(root, rel, s + rel))
    ensures Join(root, rel) !in fs ==> ProcessLine(root, Escape(s), rel, fs) == Crash(NameError("file_directory"))
  {
    UnescapeEscape(s);
  }

  // ---------------------------------------------------------------------
  // main: the objects
  // ---------------------------------------------------------------------

  /** The objects of one line of a modules.order file: the module path
      must end in ".ko" (the exit call names `sys`, which the script never
      imports), and the objects are the first line of its .mod file. */
  function ModObjects(line: Str, fs: Fs): Outcome<seq<Str>>
  {
    var (base, ext) := SplitExt(RStrip(line));
    if ext != ".ko" then Crash(NameError("sys"))
    else if base + ".mod" !in fs then Crash(FileNotFound(base + ".mod"))
    else Ok(SplitWs(ReadLine(fs[base + ".mod"])))
  }

  /** acc followed by the objects of the modules listed in lines. */
  function OrderFrom(acc: seq<Str>, lines: seq<Str>, fs: Fs): Outcome<seq<Str>>
    decreases |lines|
  {
    if lines == [] then Ok(acc)
    else match ModObjects(lines[0], fs)
      case Crash(f) => Crash(f)
      case Ok(objs) => OrderFrom(acc + objs, lines[1..], fs)
  }

  /** acc followed by the objects one command-line argument names: an
      object, the members of an archive, or the modules of a
      modules.order file; any other argument names none. */
  function ArgObjects(acc: seq<Str>, file: Str, fs: Fs, archives: map<Str, Str>): Outcome<seq<Str>>
  {
    if EndsWith(file, ".o") then Ok(acc + [file])
    else if EndsWith(file, ".a") then
      if file in archives then Ok(acc + SplitWs(archives[file])) else Crash(ArFailed(file))
    else if EndsWith(file, ".order") then
      if file in fs then OrderFrom(acc, Lines(fs[file]), fs) else Crash(FileNotFound(file))
    else Ok(acc)
  }

  /** acc followed by the objects of every argument, in order. */
  function ObjectsFrom(acc: seq<Str>, files: seq<Str>, fs: Fs, archives: map<Str, Str>): Outcome<seq<Str>>
    decreases |files|
  {
    if files == [] then Ok(acc)
    else match ArgObjects(acc, files[0], fs, archives)
      case Crash(f) => Crash(f)
      case Ok(acc') => ObjectsFrom(acc', files[1..], fs, archives)
  }

  /** A module path, followed by trailing blanks, names its .mod file. */
  lemma ModFile(base: Str, blanks: Str, fs: Fs)
    requires base != [] && base[|base| - 1] != '/' && base[|base| - 1] != '.'
    requires forall k :: 0 <= k < |blanks| ==> IsSpace(blanks[k])
    ensures base + ".mod" in fs ==>
      ModObjects(base + ".ko" + blanks, fs) == Ok(SplitWs(ReadLine(fs[base + ".mod"])))
    ensures base + ".mod" !in fs ==>
      ModObjects(base + ".ko" + blanks, fs) == Crash(FileNotFound(base + ".mod"))
  {
    KoLine(base, blanks);
  }

  /** A module path without ".ko" stops the script. */
  lemma NotKo(line: Str, fs: Fs)
    requires SplitExt(RStrip(line)).1 != ".ko"
    ensures ModObjects(line, fs) == Crash(NameError("sys"))
  {
  }

  /** An argument that is not an object, archive or modules.order file is
      skipped. */
  lemma OtherArgument(acc: seq<Str>, file: Str, fs: Fs, archives: map<Str, Str>)
    requires !EndsWith(file, ".o") && !EndsWith(file, ".a") && !EndsWith(file, ".order")
    ensures ArgObjects(acc, file, fs, archives) == Ok(acc)
  {
  }

  // ---------------------------------------------------------------------
  // main: the entries
  // ---------------------------------------------------------------------

  /** The .cmd file of an object: ".<name>.cmd" beside it. */
  function CmdFile(obj: Str): Str
  {
    var (dir, notdir) := PathSplit(obj);
    Join(dir, "." + notdir + ".cmd")
  }

  /** acc followed by the entries of the matching lines of one .cmd file. */
  function LinesFrom(acc: seq<Entry>, lines: seq<Str>, fs: Fs, cwd: Str): Outcome<seq<Entry>>
    decreases |lines|
  {
    if lines == [] then Ok(acc)
    else match MatchLine(lines[0])
      case None => LinesFrom(acc, lines[1..], fs, cwd)
      case Some((g1, g2)) =>
        match ProcessLine(cwd, g1, g2, fs)
        case Crash(f) => Crash(f)
        case Ok(e) => LinesFrom(acc + [e], lines[1..], fs, cwd)
  }

  /** acc followed by the entries of one object's .cmd file; the object's
      name must end in ".o" (the exit call names the unimported `sys`), and
      since ".o" holds no '/' that is the path ending in ".o". */
  function ObjectEntries(acc: seq<Entry>, obj: Str, fs: Fs, cwd: Str): Outcome<seq<Entry>>
  {
    if !EndsWith(obj, ".o") then Crash(NameError("sys"))
    else if CmdFile(obj) !in fs then Crash(FileNotFound(CmdFile(obj)))
    else LinesFrom(acc, Lines(fs[CmdFile(obj)]), fs, cwd)
  }

  /** acc followed by the entries of every object's .cmd file, in order. */
  function EntriesFrom(acc: seq<Entry>, objects: seq<Str>, fs: Fs, cwd: Str): Outcome<seq<Entry>>
    decreases |objects|
  {
    if objects == [] then Ok(acc)
    else match ObjectEntries(acc, objects[0], fs, cwd)
      case Crash(f) => Crash(f)
      case Ok(acc') => EntriesFrom(acc', objects[1..], fs, cwd)
  }

  /** The entries the matching lines stand for, in line order. */
  function Expected(lines: seq<Str>, cwd: Str): seq<Entry>
  {
    if lines == [] then []
    else
      var rest := Expected(lines[1..], cwd);
      match MatchLine(lines[0])
      case None => rest
      case Some((g1, g2)) => [Entry(cwd, g2, Unescape(g1) + g2)] + rest
  }

  /** Every matching line names a file that exists under cwd. */
  predicate AllExist(lines: seq<Str>, fs: Fs, cwd: Str)
  {
    forall k :: 0 <= k < |lines| && MatchLine(lines[k]).Some? ==> Join(cwd, MatchLine(lines[k]).value.1) in fs
  }

  /** One .cmd file adds exactly the entries of its matching lines, in
      order, and fails exactly when one of them names a missing file. */
  lemma LinesEntries(acc: seq<Entry>, lines: seq<Str>, fs: Fs, cwd: Str)
    ensures LinesFrom(acc, lines, fs, cwd).Ok? <==> AllExist(lines, fs, cwd)
    ensures LinesFrom(acc, lines, fs, cwd).Ok? ==> LinesFrom(acc, lines, fs, cwd).value == acc + Expected(lines, cwd)
    ensures LinesFrom(acc, lines, fs, cwd).Crash? ==> LinesFrom(acc, lines, fs, cwd).failure == NameError("file_directory")
  {
    LinesOk(acc, lines, fs, cwd);
    LinesValue(acc, lines, fs, cwd);
  }

  /** A non-matching line is skipped. */
  lemma LinesSkip(acc: seq<Entry>, lines: seq<Str>, fs: Fs, cwd: Str)
    requires lines != [] && MatchLine(lines[0]).None?
    ensures LinesFrom(acc, lines, fs, cwd) == LinesFrom(acc, lines[1..], fs, cwd)
    ensures Expected(lines, cwd) == Expected(lines[1..], cwd)
  {
  }

  /** A matching line adds its entry, or stops the run when its file is
      missing. */
  lemma LinesTake(acc: seq<Entry>, lines: seq<Str>, fs: Fs, cwd: Str)
    requires lines != [] && MatchLine(lines[0]).Some?
    ensures var (g1, g2) := MatchLine(lines[0]).value;
      var e := Entry(cwd, g2, Unescape(g1) + g2);
      && Expected(lines, cwd) == [e] + Expected(lines[1..], cwd)
      && (Join(cwd, g2) in fs ==> LinesFrom(acc, lines, fs, cwd) == LinesFrom(acc + [e], lines[1..], fs, cwd))
      && (Join(cwd, g2) !in fs ==> LinesFrom(acc, lines, fs, cwd) == Crash(NameError("file_directory")))
  {
  }

  lemma {:induction false} LinesOk(acc: seq<Entry>, lines: seq<Str>, fs: Fs, cwd: Str)
    ensures LinesFrom(acc, lines, fs, cwd).Ok? <==> AllExist(lines, fs, cwd)
    decreases |lines|
  {
    if lines != [] {
      AllExistStep(lines, fs, cwd);
      if MatchLine(lines[0]).None? {
        LinesSkip(acc, lines, fs, cwd);
        LinesOk(acc, lines[1..], fs, cwd);
      } else {
        var (g1, g2) := MatchLine(lines[0]).value;
        LinesTake(acc, lines, fs, cwd);
        LinesOk(acc + [Entry(cwd, g2, Unescape(g1) + g2)], lines[1..], fs, cwd);
      }
    }
  }

  lemma {:induction false} LinesValue(acc: seq<Entry>, lines: seq<Str>, fs: Fs, cwd: Str)
    ensures LinesFrom(acc, lines, fs, cwd).Ok? ==> LinesFrom(acc, lines, fs, cwd).value == acc + Expected(lines, cwd)
    ensures LinesFrom(acc, lines, fs, cwd).Crash? ==> LinesFrom(acc, lines, fs, cwd).failure == NameError("file_directory")
    decreases |lines|
  {
    if lines == [] {
      assert acc + [] == acc;
    } else if MatchLine(lines[0]).None? {
      LinesSkip(acc, lines, fs, cwd);
      LinesValue(acc, lines[1..], fs, cwd);
    } else {
      var (g1, g2) := MatchLine(lines[0]).value;
      var e := Entry(cwd, g2, Unescape(g1) + g2);
      LinesTake(acc, lines, fs, cwd);
      LinesValue(acc + [e], lines[1..], fs, cwd);
      assert acc + [e] + Expected(lines[1..], cwd) == acc + ([e] + Expected(lines[1..], cwd));
    }
  }

  lemma AllExistStep(lines: seq<Str>, fs: Fs, cwd: Str)
    requires lines != []
    ensures AllExist(lines, fs, cwd) <==>
      (MatchLine(lines[0]).Some? ==> Join(cwd, MatchLine(lines[0]).value.1) in fs) && AllExist(lines[1..], fs, cwd)
  {
    var tail := lines[1..];
    if AllExist(tail, fs, cwd) && (MatchLine(lines[0]).Some? ==> Join(cwd, MatchLine(lines[0]).value.1) in fs) {
      forall k | 0 <= k < |lines| && MatchLine(lines[k]).Some?
        ensures Join(cwd, MatchLine(lines[k]).value.1) in fs
      {
        if k > 0 {
          assert lines[k] == tail[k - 1];
        }
      }
    }
    if AllExist(lines, fs, cwd) {
      forall k | 0 <= k < |tail| && MatchLine(tail[k]).Some?
        ensures Join(cwd, MatchLine(tail[k]).value.1) in fs
      {
        assert tail[k] == lines[k + 1];
      }
    }
  }

  /** The entries of all objects, object after object. */
  function ExpectedAll(objects: seq<Str>, fs: Fs, cwd: Str): seq<Entry>
  {
    if objects == [] then []
    else
      (if CmdFile(objects[0]) in fs then Expected(Lines(fs[CmdFile(objects[0])]), cwd) else [])
      + ExpectedAll(objects[1..], fs, cwd)
  }

  /** Entries appear in object order, and within an object in line order. */
  lemma {:induction false} EntriesInOrder(acc: seq<Entry>, objects: seq<Str>, fs: Fs, cwd: Str)
    requires EntriesFrom(acc, objects, fs, cwd).Ok?
    ensures EntriesFrom(acc, objects, fs, cwd).value == acc + ExpectedAll(objects, fs, cwd)
    decreases |objects|
  {
    if objects != [] {
      var lines := EntriesAfterFirst(acc, objects, fs, cwd);
      var acc' := acc + Expected(lines, cwd);
      EntriesInOrder(acc', objects[1..], fs, cwd);
      ExpectedAllStep(objects, fs, cwd);
      Chain(EntriesFrom(acc, objects, fs, cwd), EntriesFrom(acc', objects[1..], fs, cwd),
        acc, Expected(lines, cwd), ExpectedAll(objects[1..], fs, cwd), ExpectedAll(objects, fs, cwd));
    }
  }

  lemma Chain(x: Outcome<seq<Entry>>, y: Outcome<seq<Entry>>, acc: seq<Entry>, e: seq<Entry>, rest: seq<Entry>, all: seq<Entry>)
    requires x == y && y.Ok? && y.value == acc + e + rest && all == e + rest
    ensures x.value == acc + all
  {
  }

  /** A successful run went on from the first object's entries. */
  lemma EntriesAfterFirst(acc: seq<Entry>, objects: seq<Str>, fs: Fs, cwd: Str) returns (lines: seq<Str>)
    requires objects != [] && EntriesFrom(acc, objects, fs, cwd).Ok?
    ensures CmdFile(objects[0]) in fs && lines == Lines(fs[CmdFile(objects[0])])
    ensures EntriesFrom(acc, objects, fs, cwd) == EntriesFrom(acc + Expected(lines, cwd), objects[1..], fs, cwd)
  {
    EntriesStep(acc, objects, fs, cwd);
    lines := Lines(fs[CmdFile(objects[0])]);
    LinesEntries(acc, lines, fs, cwd);
  }

  lemma ExpectedAllStep(objects: seq<Str>, fs: Fs, cwd: Str)
    requires objects != [] && CmdFile(objects[0]) in fs
    ensures ExpectedAll(objects, fs, cwd) == Expected(Lines(fs[CmdFile(objects[0])]), cwd) + ExpectedAll(objects[1..], fs, cwd)
  {
  }

  /** A run that succeeds read the first object's .cmd file and went on
      with the rest. */
  lemma EntriesStep(acc: seq<Entry>, objects: seq<Str>, fs: Fs, cwd: Str)
    requires objects != [] && EntriesFrom(acc, objects, fs, cwd).Ok?
    ensures CmdFile(objects[0]) in fs
    ensures LinesFrom(acc, Lines(fs[CmdFile(objects[0])]), fs, cwd) == ObjectEntries(acc, objects[0], fs, cwd)
    ensures var r := ObjectEntries(acc, objects[0], fs, cwd);
      r.Ok? && EntriesFrom(acc, objects, fs, cwd) == EntriesFrom(r.value, objects[1..], fs, cwd)
  {
  }

  /** An object in a directory: its .cmd file is ".<name>.cmd" in the same
      directory. */
  lemma CmdFileBeside(dir: Str, name: Str)
    requires dir != [] && dir[|dir| - 1] != '/'
    requires '/' !in name
    ensures CmdFile(dir + "/" + name) == dir + "/." + name + ".cmd"
  {
    PathSplitBeside(dir, name);
  }

  /** An object without a directory: its .cmd file is ".<name>.cmd". */
  lemma CmdFileHere(name: Str)
    requires '/' !in name
    ensures CmdFile(name) == "." + name + ".cmd"
  {
    PathSplitHere(name);
    var b := "." + name + ".cmd";
    assert b[0] == '.';
    assert !StartsWith(b, "/");
    assert Join([], b) == [] + b == b;
    assert CmdFile(name) == Join([], b);
  }

  // ---------------------------------------------------------------------
  // main
  // ---------------------------------------------------------------------

  /** The output path and the entries main writes to it. */
  function Run(logLevel: Str, output: Option<Str>, files: seq<Str>, fs: Fs, archives: map<Str, Str>, cwd: Str)
    : Outcome<(Str, seq<Entry>)>
  {
    match ParseArguments(logLevel, output)
    case Crash(f) => Crash(f)
    case Ok(out) =>
      match ObjectsFrom([], files, fs, archives)
      case Crash(f) => Crash(f)
      case Ok(objects) =>
        match EntriesFrom([], objects, fs, cwd)
        case Crash(f) => Crash(f)
        case Ok(entries) => Ok((out, entries))
  }

  /** The first loop of main: the objects named on the command line. */
  method CollectObjects(files: seq<Str>, fs: Fs, archives: map<Str, Str>) returns (r: Outcome<seq<Str>>)
    ensures r == ObjectsFrom([], files, fs, archives)
  {
    var objects: seq<Str> := [];
    var i := 0;
    while i < |files|
      invariant i <= |files|
      invariant ObjectsFrom(objects, files[i..], fs, archives) == ObjectsFrom([], files, fs, archives)
    {
      var file := files[i];
      assert files[i..][1..] == files[i + 1..];
      if EndsWith(file, ".o") {
        objects := objects + [file];
      } else if EndsWith(file, ".a") {
        if file !in archives {
          return Crash(ArFailed(file));
        }
        objects := objects + SplitWs(archives[file]);
      } else if EndsWith(file, ".order") {
        if file !in fs {
          return Crash(FileNotFound(file));
        }
        var res := ReadOrder(objects, Lines(fs[file]), fs);
        if res.Crash? {
          return res;
        }
        objects := res.value;
      }
      i := i + 1;
    }
    return Ok(objects);
  }

  /** The loop over a modules.order file. */
  method ReadOrder(objects0: seq<Str>, lines: seq<Str>, fs: Fs) returns (r: Outcome<seq<Str>>)
    ensures r == OrderFrom(objects0, lines, fs)
  {
    var objects := objects0;
    var i := 0;
    while i < |lines|
      invariant i <= |lines|
      invariant OrderFrom(objects, lines[i..], fs) == OrderFrom(objects0, lines, fs)
    {
      assert lines[i..][1..] == lines[i + 1..];
      var ko := RStrip(lines[i]);
      var (base, ext) := SplitExt(ko);
      if ext != ".ko" {
        return Crash(NameError("sys"));
      }
      var mod := base + ".mod";
      if mod !in fs {
        return Crash(FileNotFound(mod));
      }
      objects := objects + SplitWs(ReadLine(fs[mod]));
      i := i + 1;
    }
    return Ok(objects);
  }

  /** The second loop of main: the entries of every object's .cmd file. */
  method CollectEntries(objects: seq<Str>, fs: Fs, cwd: Str) returns (r: Outcome<seq<Entry>>)
    ensures r == EntriesFrom([], objects, fs, cwd)
  {
    var commands: seq<Entry> := [];
    var i := 0;
    while i < |objects|
      invariant i <= |objects|
      invariant EntriesFrom(commands, objects[i..], fs, cwd) == EntriesFrom([], objects, fs, cwd)
    {
      assert objects[i..][1..] == objects[i + 1..];
      var (dir, notdir) := PathSplit(objects[i]);
      PathSplitSuffix(objects[i], ".o");
      if !EndsWith(notdir, ".o") {
        return Crash(NameError("sys"));
      }
      var cmdFile := Join(dir, "." + notdir + ".cmd");
      if cmdFile !in fs {
        return Crash(FileNotFound(cmdFile));
      }
      var res := ReadCmdFile(commands, Lines(fs[cmdFile]), fs, cwd);
      if res.Crash? {
        return res;
      }
      commands := res.value;
      i := i + 1;
    }
    return Ok(commands);
  }

  /** The loop over the lines of one .cmd file. */
  method ReadCmdFile(commands0: seq<Entry>, lines: seq<Str>, fs: Fs, cwd: Str) returns (r: Outcome<seq<Entry>>)
    ensures r == LinesFrom(commands0, lines, fs, cwd)
  {
    var commands := commands0;
    var i := 0;
    while i < |lines|
      invariant i <= |lines|
      invariant LinesFrom(commands, lines[i..], fs, cwd) == LinesFrom(commands0, lines, fs, cwd)
    {
      assert lines[i..][1..] == lines[i + 1..];
      var result := MatchLine(lines[i]);
      if result.Some? {
        var entry := ProcessLine(cwd, result.value.0, result.value.1, fs);
        if entry.Crash? {
          return Crash(entry.failure);
        }
        commands := commands + [entry.value];
      }
      i := i + 1;
    }
    return Ok(commands);
  }

  /** main, up to the json.dump of the entries to the output path. */
  method Generate(logLevel: Str, output: Option<Str>, files: seq<Str>, fs: Fs, archives: map<Str, Str>, cwd: Str)
    returns (r: Outcome<(Str, seq<Entry>)>)
    ensures r == Run(logLevel, output, files, fs, archives, cwd)
  {
    var args := ParseArguments(logLevel, output);
    if args.Crash? {
      return Crash(args.failure);
    }
    var objects := CollectObjects(files, fs, archives);
    if objects.Crash? {
      return Crash(objects.failure);
    }
    var entries := CollectEntries(objects.value, fs, cwd);
    if entries.Crash? {
      return Crash(entries.failure);
    }
    return Ok((args.value, entries.value));
  }
}
