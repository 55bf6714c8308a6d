// scripts/clang-tools/gen_compile_commands.py: concatenating the ".json"
// fragments the compiler left beside each object into one output stream.
// The file system is a map from path to text, `ar -t` a map from archive
// to its output; the output file is a stream object that only grows.
module ClangCompileCommands {
  import opened Wrappers
  import opened PyStr

  type Fs = map<Str, Str>

  /** Why the script stops early: sys.exit with its message, a failing
      `ar -t`, or open() of a missing file. */
  datatype Stop =
    | SysExit(message: Str)
    | ArFailed(archive: Str)
    | FileNotFound(path: Str)
    | NoOutput

  /** What has been written, and why the script stopped, if it did. */
  datatype Emitted = Emitted(text: Str, stop: Option<Stop>)

  /** The output file opened for writing. */
  class Dst {
    var text: Str

    constructor ()
      ensures text == []
    {
      text := [];
    }

    /** dst.write(s) */
    method Write(s: Str)
      modifies this
      ensures text == old(text) + s
    {
      text := text + s;
    }
  }

  // ---------------------------------------------------------------------
  // gen_compile_commands
  // ---------------------------------------------------------------------

  /** The fragment the compiler writes for an object: ".<name>.json" in the
      object's directory. */
  function Sidecar(obj: Str): Str
  {
    var (dir, notdir) := PathSplit(obj);
    Join(dir, "." + notdir + ".json")
  }

  /** An object path must name a file ending in ".o"; since ".o" holds no
      '/', that is the path itself ending in ".o" (ObjectName). */
  predicate IsObject(obj: Str)
  {
    EndsWith(obj, ".o")
  }

  /** The test gen_compile_commands makes on the name part of the path. */
  lemma ObjectName(obj: Str)
    ensures IsObject(obj) <==> EndsWith(PathSplit(obj).1, ".o")
  {
    PathSplitSuffix(obj, ".o");
  }

  /** The text of an object's fragment, or nothing when there is none. */
  function Fragment(obj: Str, fs: Fs): Str
  {
    if Sidecar(obj) in fs then fs[Sidecar(obj)] else []
  }

  /** acc followed by what one object contributes: the first path that is
      not an object ends the script. */
  function ObjectStep(acc: Str, obj: Str, fs: Fs): (r: Emitted)
    ensures IsObject(obj) ==> r == Emitted(acc + Fragment(obj, fs), None)
    ensures !IsObject(obj) ==> r == Emitted(acc, Some(SysExit(obj + ": object path must end with .o")))
  {
    if !IsObject(obj) then Emitted(acc, Some(SysExit(obj + ": object path must end with .o")))
    else if Sidecar(obj) in fs then Emitted(acc + fs[Sidecar(obj)], None)
    else Emitted(acc, None)
  }

  /** acc followed by the fragments of objects, as gen_compile_commands
      writes them: a missing fragment is skipped, and the first path that
      is not an object ends the script. */
  function CopiedFrom(acc: Str, objects: seq<Str>, fs: Fs): Emitted
    decreases |objects|
  {
    if objects == [] then Emitted(acc, None)
    else
      var r := ObjectStep(acc, objects[0], fs);
      if r.stop.Some? then r else CopiedFrom(r.text, objects[1..], fs)
  }

  /** The fragments that exist, in order: the reference for what an
      uninterrupted run writes. */
  function Fragments(objects: seq<Str>, fs: Fs): Str
  {
    if objects == [] then [] else Fragment(objects[0], fs) + Fragments(objects[1..], fs)
  }

  /** The index of the first path that is not an object, or |objects|. */
  function FirstNonObject(objects: seq<Str>): (k: nat)
    ensures k <= |objects|
    ensures forall j :: 0 <= j < k ==> IsObject(objects[j])
    ensures k < |objects| ==> !IsObject(objects[k])
  {
    if objects == [] || !IsObject(objects[0]) then 0 else 1 + FirstNonObject(objects[1..])
  }

  /** An object's fragment is copied and the rest follow. */
  lemma CopiedStep(acc: Str, objects: seq<Str>, fs: Fs)
    requires objects != [] && IsObject(objects[0])
    ensures CopiedFrom(acc, objects, fs) == CopiedFrom(acc + Fragment(objects[0], fs), objects[1..], fs)
  {
  }

  /** gen_compile_commands copies the existing fragments in input order up
      to the first path that is not an object. */
  lemma {:induction false} CopiedInOrder(acc: Str, objects: seq<Str>, fs: Fs)
    ensures CopiedFrom(acc, objects, fs).text == acc + Fragments(objects[..FirstNonObject(objects)], fs)
    decreases |objects|
  {
    var k := FirstNonObject(objects);
    if k == 0 {
      assert objects[..k] == [];
      assert acc + [] == acc;
    } else {
      var here, rest := Fragment(objects[0], fs), objects[1..];
      CopiedStep(acc, objects, fs);
      CopiedInOrder(acc + here, rest, fs);
      assert FirstNonObject(rest) == k - 1;
      FragmentsPrefix(objects, k, fs);
      Assoc(acc, here, Fragments(rest[..k - 1], fs));
    }
  }

  /** gen_compile_commands stops exactly when some path is not an object,
      at the first one. */
  lemma {:induction false} CopiedStop(acc: Str, objects: seq<Str>, fs: Fs)
    ensures var k := FirstNonObject(objects);
      CopiedFrom(acc, objects, fs).stop
      == if k < |objects| then Some(SysExit(objects[k] + ": object path must end with .o")) else None
    decreases |objects|
  {
    if objects != [] && IsObject(objects[0]) {
      CopiedStep(acc, objects, fs);
      CopiedStop(acc + Fragment(objects[0], fs), objects[1..], fs);
    }
  }

  lemma FragmentsPrefix(objects: seq<Str>, k: nat, fs: Fs)
    requires 0 < k <= |objects|
    ensures Fragments(objects[..k], fs) == Fragment(objects[0], fs) + Fragments(objects[1..][..k - 1], fs)
  {
    assert objects[..k][1..] == objects[1..][..k - 1];
  }

  lemma Assoc(a: Str, b: Str, c: Str)
    ensures a + b + c == a + (b + c)
  {
  }

  /** The fragment of an object in a directory lies beside it. */
  lemma SidecarBeside(dir: Str, name: Str)
    requires dir != [] && dir[|dir| - 1] != '/' && '/' !in name
    ensures Sidecar(dir + "/" + name) == dir + "/." + name + ".json"
  {
    PathSplitBeside(dir, name);
  }

  /** The fragment of an object without a directory. */
  lemma SidecarHere(name: Str)
    requires '/' !in name
    ensures Sidecar(name) == "." + name + ".json"
  {
    PathSplitHere(name);
  }

  /** gen_compile_commands(dst, objects) */
  method GenCompileCommands(dst: Dst, objects: seq<Str>, fs: Fs) returns (stop: Option<Stop>)
    modifies dst
    ensures Emitted(dst.text, stop) == CopiedFrom(old(dst.text), objects, fs)
  {
    var i := 0;
    while i < |objects|
      invariant i <= |objects|
      invariant CopiedFrom(dst.text, objects[i..], fs) == CopiedFrom(old(dst.text), objects, fs)
    {
      assert objects[i..][1..] == objects[i + 1..];
      var (dir, notdir) := PathSplit(objects[i]);
      ObjectName(objects[i]);
      if !EndsWith(notdir, ".o") {
        return Some(SysExit(objects[i] + ": object path must end with .o"));
      }
      var json := Join(dir, "." + notdir + ".json");
      if json in fs {
        dst.Write(fs[json]);
      }
      i := i + 1;
    }
    return None;
  }

  // ---------------------------------------------------------------------
  // main
  // ---------------------------------------------------------------------

  /** acc followed by what the lines of a modules.order file write: each
      line must name a ".ko" module, whose objects are the first line of
      its ".mod" file. */
  function OrderFrom(acc: Str, lines: seq<Str>, fs: Fs): Emitted
    decreases |lines|
  {
    if lines == [] then Emitted(acc, None)
    else
      var ko := RStrip(lines[0]);
      var (base, ext) := SplitExt(ko);
      if ext != ".ko" then Emitted(acc, Some(SysExit(ko + ": mobule path must end with .ko")))
      else if base + ".mod" !in fs then Emitted(acc, Some(FileNotFound(base + ".mod")))
      else
        var r := CopiedFrom(acc, SplitWs(ReadLine(fs[base + ".mod"])), fs);
        if r.stop.Some? then r else OrderFrom(r.text, lines[1..], fs)
  }

  /** acc followed by what one command-line argument writes. */
  function ArgStep(acc: Str, f: Str, fs: Fs, archives: map<Str, Str>): Emitted
  {
    if EndsWith(f, ".o") then CopiedFrom(acc, [f], fs)
    else if EndsWith(f, ".a") then
      if f in archives then CopiedFrom(acc, SplitWs(archives[f]), fs) else Emitted(acc, Some(ArFailed(f)))
    else if EndsWith(f, ".order") then
      if f in fs then OrderFrom(acc, Lines(fs[f]), fs) else Emitted(acc, Some(FileNotFound(f)))
    else Emitted(acc, None)
  }

  /** acc followed by what the arguments write, one after the other. */
  function RunFrom(acc: Str, files: seq<Str>, fs: Fs, archives: map<Str, Str>): Emitted
    decreases |files|
  {
    if files == [] then Emitted(acc, None)
    else
      var r := ArgStep(acc, files[0], fs, archives);
      if r.stop.Some? then r else RunFrom(r.text, files[1..], fs, archives)
  }

  /** An argument that is not an object, archive or modules.order file is
      ignored. */
  lemma OtherArgument(acc: Str, f: Str, fs: Fs, archives: map<Str, Str>)
    requires !EndsWith(f, ".o") && !EndsWith(f, ".a") && !EndsWith(f, ".order")
    ensures ArgStep(acc, f, fs, archives) == Emitted(acc, None)
  {
  }

  /** An object argument writes its fragment, if there is one. */
  lemma ObjectArgStep(acc: Str, f: Str, fs: Fs, archives: map<Str, Str>)
    requires EndsWith(f, ".o")
    ensures ArgStep(acc, f, fs, archives) == Emitted(acc + Fragment(f, fs), None)
  {
    CopiedStep(acc, [f], fs);
    assert [f][1..] == [];
  }

  /** An archive whose `ar -t` listing names its members one per line
      writes the fragments of those members, in listing order. */
  lemma ArchiveArgument(acc: Str, f: Str, members: seq<Str>, fs: Fs, archives: map<Str, Str>)
    requires EndsWith(f, ".a")
    requires f in archives && archives[f] == UnLines(members)
    requires forall k :: 0 <= k < |members| ==> Word(members[k])
    ensures ArgStep(acc, f, fs, archives) == CopiedFrom(acc, members, fs)
  {
    assert f[|f| - 1] == 'a';
    SplitUnLines(members);
  }

  /** A modules.order line naming "<base>.ko" reads "<base>.mod" and copies
      the fragments of the objects on its first line. */
  lemma OrderLine(acc: Str, base: Str, blanks: Str, rest: seq<Str>, fs: Fs)
    requires base != [] && base[|base| - 1] != '/' && base[|base| - 1] != '.'
    requires forall k :: 0 <= k < |blanks| ==> IsSpace(blanks[k])
    requires base + ".mod" in fs
    ensures var r := CopiedFrom(acc, SplitWs(ReadLine(fs[base + ".mod"])), fs);
      OrderFrom(acc, [base + ".ko" + blanks] + rest, fs) == if r.stop.Some? then r else OrderFrom(r.text, rest, fs)
  {
    KoLine(base, blanks);
    assert ([base + ".ko" + blanks] + rest)[1..] == rest;
  }

  /** A modules.order line that does not name a ".ko" module ends the
      script. */
  lemma OrderNotKo(acc: Str, line: Str, rest: seq<Str>, fs: Fs)
    requires SplitExt(RStrip(line)).1 != ".ko"
    ensures OrderFrom(acc, [line] + rest, fs) == Emitted(acc, Some(SysExit(RStrip(line) + ": mobule path must end with .ko")))
  {
  }

  /** Arguments are handled in input order: what the first ones write
      comes first, and a stop among them ends the run. */
  lemma {:induction false} RunAppend(acc: Str, a: seq<Str>, b: seq<Str>, fs: Fs, archives: map<Str, Str>)
    ensures var r := RunFrom(acc, a, fs, archives);
      RunFrom(acc, a + b, fs, archives) == if r.stop.Some? then r else RunFrom(r.text, b, fs, archives)
    decreases |a|
  {
    if a == [] {
      assert a + b == b;
    } else {
      assert (a + b)[0] == a[0];
      assert (a + b)[1..] == a[1..] + b;
      var r := ArgStep(acc, a[0], fs, archives);
      if r.stop.None? {
        RunAppend(r.text, a[1..], b, fs, archives);
      }
    }
  }

  /** A command line of objects only writes all their existing fragments,
      in order. */
  lemma {:induction false} ObjectsOnly(acc: Str, files: seq<Str>, fs: Fs, archives: map<Str, Str>)
    requires forall k :: 0 <= k < |files| ==> EndsWith(files[k], ".o")
    ensures RunFrom(acc, files, fs, archives) == Emitted(acc + Fragments(files, fs), None)
    decreases |files|
  {
    if files == [] {
      assert acc + [] == acc;
    } else {
      var here, rest := Fragment(files[0], fs), files[1..];
      RunObjectStep(acc, files, fs, archives);
      forall k | 0 <= k < |rest|
        ensures EndsWith(rest[k], ".o")
      {
        assert rest[k] == files[k + 1];
      }
      ObjectsOnly(acc + here, rest, fs, archives);
      assert Fragments(files, fs) == here + Fragments(rest, fs);
      Assoc(acc, here, Fragments(rest, fs));
    }
  }

  lemma RunObjectStep(acc: Str, files: seq<Str>, fs: Fs, archives: map<Str, Str>)
    requires files != [] && EndsWith(files[0], ".o")
    ensures RunFrom(acc, files, fs, archives) == RunFrom(acc + Fragment(files[0], fs), files[1..], fs, archives)
  {
    ObjectArgStep(acc, files[0], fs, archives);
  }

  /** The loop over a modules.order file. */
  method ReadOrder(dst: Dst, lines: seq<Str>, fs: Fs) returns (stop: Option<Stop>)
    modifies dst
    ensures Emitted(dst.text, stop) == OrderFrom(old(dst.text), lines, fs)
  {
    var i := 0;
    while i < |lines|
      invariant i <= |lines|
      invariant OrderFrom(dst.text, lines[i..], fs) == OrderFrom(old(dst.text), lines, fs)
    {
      assert lines[i..][1..] == lines[i + 1..];
      var ko := RStrip(lines[i]);
      var (base, ext) := SplitExt(ko);
      if ext != ".ko" {
        return Some(SysExit(ko + ": mobule path must end with .ko"));
      }
      var mod := base + ".mod";
      if mod !in fs {
        return Some(FileNotFound(mod));
      }
      stop := GenCompileCommands(dst, SplitWs(ReadLine(fs[mod])), fs);
      if stop.Some? {
        return;
      }
      i := i + 1;
    }
    return None;
  }

  /** The loop of main over the command-line arguments. */
  method WriteAll(dst: Dst, files: seq<Str>, fs: Fs, archives: map<Str, Str>) returns (stop: Option<Stop>)
    modifies dst
    ensures Emitted(dst.text, stop) == RunFrom(old(dst.text), files, fs, archives)
  {
    var i := 0;
    while i < |files|
      invariant i <= |files|
      invariant RunFrom(dst.text, files[i..], fs, archives) == RunFrom(old(dst.text), files, fs, archives)
    {
      assert files[i..][1..] == files[i + 1..];
      var f := files[i];
      if EndsWith(f, ".o") {
        stop := GenCompileCommands(dst, [f], fs);
      } else if EndsWith(f, ".a") {
        if f !in archives {
          return Some(ArFailed(f));
        }
        stop := GenCompileCommands(dst, SplitWs(archives[f]), fs);
      } else if EndsWith(f, ".order") {
        if f !in fs {
          return Some(FileNotFound(f));
        }
        stop := ReadOrder(dst, Lines(fs[f]), fs);
      } else {
        stop := None;
      }
      if stop.Some? {
        return;
      }
      i := i + 1;
    }
    return None;
  }

  /** main: without -o, open(None) fails before anything is written;
      otherwise the output is truncated and the arguments are written to
      it. The result is the output path and its final text. */
  method Generate(output: Option<Str>, files: seq<Str>, fs: Fs, archives: map<Str, Str>)
    returns (written: Option<(Str, Str)>, stop: Option<Stop>)
    ensures output.None? ==> written.None? && stop == Some(NoOutput)
    ensures output.Some? ==>
      var r := RunFrom([], files, fs, archives);
      written == Some((output.value, r.text)) && stop == r.stop
  {
    if output.None? {
      return None, Some(NoOutput);
    }
    var dst := new Dst();
    stop := WriteAll(dst, files, fs, archives);
    written := Some((output.value, dst.text));
  }
}
