// The Python string, path and file-reading operations that the two
// compile_commands.json generators are built from: str.replace, str.split,
// str.rstrip, str.endswith, os.path.split, os.path.join, os.path.splitext
// (POSIX flavour) and iteration over the lines of a text file.
module PyStr {

  type Str = seq<char>

  /** str.isspace for one character: the ASCII blanks, the information
      separators 0x1c..0x1f, and the Unicode spaces. */
  predicate IsSpace(c: char)
  {
    var n := c as int;
    (9 <= n <= 13) || (0x1c <= n <= 0x20) || n == 0x85 || n == 0xa0 || n == 0x1680
    || (0x2000 <= n <= 0x200a) || n == 0x2028 || n == 0x2029 || n == 0x202f
    || n == 0x205f || n == 0x3000
  }

  predicate StartsWith(s: Str, prefix: Str)
  {
    |prefix| <= |s| && s[..|prefix|] == prefix
  }

  /** str.endswith */
  predicate EndsWith(s: Str, suffix: Str)
  {
    |suffix| <= |s| && s[|s| - |suffix|..] == suffix
  }

  /** Does o occur in s at index i? */
  predicate OccursAt(s: Str, o: Str, i: int)
  {
    0 <= i <= |s| - |o| && s[i..i + |o|] == o
  }

  /** Does o occur in s? */
  ghost predicate Occurs(s: Str, o: Str)
  {
    exists i :: 0 <= i <= |s| && OccursAt(s, o, i)
  }

  // ---------------------------------------------------------------------
  // str.replace
  // ---------------------------------------------------------------------

  /** str.replace(pat, rep): every occurrence of pat, scanning from the
      left and without overlap, is replaced by rep. */
  function Replace(s: Str, pat: Str, rep: Str): Str
    requires pat != []
    decreases |s|
  {
    if |s| < |pat| then s
    else if s[..|pat|] == pat then rep + Replace(s[|pat|..], pat, rep)
    else [s[0]] + Replace(s[1..], pat, rep)
  }

  /** A string without pat is left as it is. */
  lemma {:induction false} ReplaceAbsent(s: Str, pat: Str, rep: Str)
    requires pat != [] && !Occurs(s, pat)
    ensures Replace(s, pat, rep) == s
    decreases |s|
  {
    if |pat| <= |s| {
      assert !OccursAt(s, pat, 0);
      assert s[0..0 + |pat|] == s[..|pat|];
      if !Occurs(s[1..], pat) {
        ReplaceAbsent(s[1..], pat, rep);
        assert [s[0]] + s[1..] == s;
      } else {
        var i :| 0 <= i <= |s[1..]| && OccursAt(s[1..], pat, i);
        assert i + |pat| <= |s[1..]|;
        assert s[1..][i..i + |pat|] == s[i + 1..i + 1 + |pat|];
        assert OccursAt(s, pat, i + 1);
      }
    }
  }

  /** A replacement at the start puts rep first. */
  lemma ReplaceHead(s: Str, pat: Str, rep: Str)
    requires pat != [] && rep != [] && |pat| <= |s|
    ensures s[..|pat|] == pat ==> Replace(s, pat, rep)[0] == rep[0]
  {
  }

  /** A prefix of the result made only of characters outside rep was not
      touched by the replacement. */
  lemma {:induction false} ReplaceKeepsPrefix(s: Str, pat: Str, rep: Str, k: nat)
    requires pat != [] && rep != []
    requires k <= |Replace(s, pat, rep)|
    requires forall j :: 0 <= j < k ==> Replace(s, pat, rep)[j] !in rep
    ensures k <= |s| && s[..k] == Replace(s, pat, rep)[..k]
    decreases |s|
  {
    var r := Replace(s, pat, rep);
    if k > 0 && |pat| <= |s| {
      ReplaceHead(s, pat, rep);
      assert rep[0] in rep;
      assert r[0] !in rep;
      if s[..|pat|] == pat {
        assert false;
      } else {
        var t := Replace(s[1..], pat, rep);
        assert r == [s[0]] + t;
        forall j | 0 <= j < k - 1
          ensures t[j] !in rep
        {
          assert t[j] == r[j + 1];
        }
        ReplaceKeepsPrefix(s[1..], pat, rep, k - 1);
        assert s[..k] == [s[0]] + s[1..][..k - 1];
        assert r[..k] == [s[0]] + t[..k - 1];
      }
    }
  }

  /** When rep shares no character with pat, nothing of pat is left after
      the replacement. */
  lemma {:induction false} ReplaceRemoves(s: Str, pat: Str, rep: Str)
    requires pat != [] && rep != []
    requires forall c :: c in rep ==> c !in pat
    ensures !Occurs(Replace(s, pat, rep), pat)
    decreases |s|
  {
    if |s| < |pat| {
      NoRoom(s, pat);
    } else if s[..|pat|] == pat {
      ReplaceRemoves(s[|pat|..], pat, rep);
      NotAfterRep(rep, Replace(s[|pat|..], pat, rep), pat);
    } else {
      ReplaceRemoves(s[1..], pat, rep);
      NotAfterKept(s, pat, rep);
    }
  }

  lemma NoRoom(s: Str, pat: Str)
    requires |s| < |pat|
    ensures !Occurs(s, pat)
  {
  }

  /** No occurrence starts inside rep, and t has none. */
  lemma NotAfterRep(rep: Str, t: Str, pat: Str)
    requires pat != [] && rep != []
    requires forall c :: c in rep ==> c !in pat
    requires !Occurs(t, pat)
    ensures !Occurs(rep + t, pat)
  {
    var r := rep + t;
    forall i | 0 <= i <= |r|
      ensures !OccursAt(r, pat, i)
    {
      if i + |pat| <= |r| {
        if i < |rep| {
          assert r[i..i + |pat|][0] == rep[i];
          assert rep[i] in rep;
          assert pat[0] in pat;
        } else {
          assert t[i - |rep|..i - |rep| + |pat|] == r[i..i + |pat|];
          assert !OccursAt(t, pat, i - |rep|);
        }
      }
    }
  }

  /** A kept first character cannot start an occurrence: the characters
      after it in the result were kept as well, and s does not start with
      pat. */
  lemma NotAfterKept(s: Str, pat: Str, rep: Str)
    requires pat != [] && rep != [] && |pat| <= |s| && s[..|pat|] != pat
    requires forall c :: c in rep ==> c !in pat
    requires !Occurs(Replace(s[1..], pat, rep), pat)
    ensures !Occurs([s[0]] + Replace(s[1..], pat, rep), pat)
  {
    var t := Replace(s[1..], pat, rep);
    var r := [s[0]] + t;
    forall i | 0 <= i <= |r|
      ensures !OccursAt(r, pat, i)
    {
      if i + |pat| <= |r| {
        if i == 0 {
          if exists j :: 0 <= j < |pat| - 1 && t[j] in rep {
            var j :| 0 <= j < |pat| - 1 && t[j] in rep;
            assert r[..|pat|][j + 1] == t[j];
            assert pat[j + 1] in pat;
          } else {
            ReplaceKeepsPrefix(s[1..], pat, rep, |pat| - 1);
            assert r[..|pat|] == [s[0]] + t[..|pat| - 1];
            assert s[..|pat|] == [s[0]] + s[1..][..|pat| - 1];
          }
        } else {
          assert t[i - 1..i - 1 + |pat|] == r[i..i + |pat|];
          assert !OccursAt(t, pat, i - 1);
        }
      }
    }
  }

  // ---------------------------------------------------------------------
  // str.rstrip, str.split and text lines
  // ---------------------------------------------------------------------

  /** str.rstrip() with no argument: trailing whitespace removed. */
  function RStrip(s: Str): (r: Str)
    ensures |r| <= |s| && r == s[..|r|]
    ensures r == [] || !IsSpace(r[|r| - 1])
    ensures forall k :: |r| <= k < |s| ==> IsSpace(s[k])
  {
    if s != [] && IsSpace(s[|s| - 1]) then RStrip(s[..|s| - 1]) else s
  }

  /** Only whitespace after a non-whitespace character at n - 1: rstrip
      keeps the first n characters. */
  lemma {:induction false} RStripAt(s: Str, n: nat)
    requires 0 < n <= |s| && !IsSpace(s[n - 1])
    requires forall k :: n <= k < |s| ==> IsSpace(s[k])
    ensures RStrip(s) == s[..n]
    decreases |s|
  {
    if |s| > n {
      var t := s[..|s| - 1];
      assert t[n - 1] == s[n - 1];
      forall k | n <= k < |t|
        ensures IsSpace(t[k])
      {
        assert t[k] == s[k];
      }
      RStripAt(t, n);
      assert t[..n] == s[..n];
    }
  }

  /** The length of the run of non-space characters that starts s. */
  function TokenLen(s: Str): (n: nat)
    ensures n <= |s|
    ensures forall k :: 0 <= k < n ==> !IsSpace(s[k])
    ensures n < |s| ==> IsSpace(s[n])
  {
    if s == [] || IsSpace(s[0]) then 0 else 1 + TokenLen(s[1..])
  }

  /** str.split() with no argument: the maximal runs of non-space
      characters, in order. */
  function SplitWs(s: Str): seq<Str>
    decreases |s|
  {
    if s == [] then []
    else if IsSpace(s[0]) then SplitWs(s[1..])
    else
      var n := TokenLen(s);
      [s[..n]] + SplitWs(s[n..])
  }

  /** A word: what str.split() can return as one element. */
  predicate Word(w: Str)
  {
    w != [] && forall k :: 0 <= k < |w| ==> !IsSpace(w[k])
  }

  /** Words joined by single spaces, as the first line of a .mod file
      lists the objects of a module. */
  function Unwords(ws: seq<Str>): Str
  {
    if ws == [] then [] else if |ws| == 1 then ws[0] else ws[0] + [' '] + Unwords(ws[1..])
  }

  /** Every element of str.split() is a word. */
  lemma {:induction false} SplitWsWords(s: Str)
    ensures forall k :: 0 <= k < |SplitWs(s)| ==> Word(SplitWs(s)[k])
    decreases |s|
  {
    if s != [] {
      if IsSpace(s[0]) {
        SplitWsWords(s[1..]);
      } else {
        SplitWsWords(s[TokenLen(s)..]);
      }
    }
  }

  /** Splitting words joined by spaces gives the words back. */
  lemma {:induction false} SplitUnwords(ws: seq<Str>)
    requires forall k :: 0 <= k < |ws| ==> Word(ws[k])
    ensures SplitWs(Unwords(ws)) == ws
    decreases |ws|
  {
    if |ws| == 1 {
      TokenOf(ws[0], []);
      assert ws[0] + [] == ws[0];
    } else if |ws| > 1 {
      SplitUnwords(ws[1..]);
      UnwordsStep(ws);
    }
  }

  lemma UnwordsStep(ws: seq<Str>)
    requires |ws| > 1 && Word(ws[0]) && SplitWs(Unwords(ws[1..])) == ws[1..]
    ensures SplitWs(Unwords(ws)) == ws
  {
    var rest := Unwords(ws[1..]);
    SpaceThen(rest);
    TokenOf(ws[0], [' '] + rest);
    assert Unwords(ws) == ws[0] + ([' '] + rest);
    assert ws == [ws[0]] + ws[1..];
  }

  /** Words each followed by a newline, as `ar -t` lists the members of an
      archive, one per line. */
  function UnLines(ws: seq<Str>): Str
  {
    if ws == [] then [] else ws[0] + ['\n'] + UnLines(ws[1..])
  }

  /** Splitting one-per-line words gives the words back. */
  lemma {:induction false} SplitUnLines(ws: seq<Str>)
    requires forall k :: 0 <= k < |ws| ==> Word(ws[k])
    ensures SplitWs(UnLines(ws)) == ws
    decreases |ws|
  {
    if ws != [] {
      var rest := UnLines(ws[1..]);
      SplitUnLines(ws[1..]);
      assert IsSpace('\n');
      assert (['\n'] + rest)[1..] == rest;
      TokenOf(ws[0], ['\n'] + rest);
      assert UnLines(ws) == ws[0] + (['\n'] + rest);
      assert ws == [ws[0]] + ws[1..];
    }
  }

  lemma SpaceThen(rest: Str)
    ensures SplitWs([' '] + rest) == SplitWs(rest)
  {
    assert IsSpace(' ');
    assert ([' '] + rest)[1..] == rest;
  }

  /** A word followed by nothing or by a space is read as one token. */
  lemma TokenOf(w: Str, tail: Str)
    requires Word(w) && (tail == [] || IsSpace(tail[0]))
    ensures SplitWs(w + tail) == [w] + SplitWs(tail)
  {
    var s := w + tail;
    TokenLenWord(w, tail);
    assert s[0] == w[0];
    assert s[..|w|] == w && s[|w|..] == tail;
  }

  lemma {:induction false} TokenLenWord(w: Str, tail: Str)
    requires forall k :: 0 <= k < |w| ==> !IsSpace(w[k])
    requires tail == [] || IsSpace(tail[0])
    ensures TokenLen(w + tail) == |w|
    decreases |w|
  {
    if w != [] {
      assert (w + tail)[1..] == w[1..] + tail;
      assert (w + tail)[0] == w[0];
      TokenLenWord(w[1..], tail);
    } else {
      assert w + tail == tail;
    }
  }

  /** The length of the first line of t, its newline included. */
  function LineLen(t: Str): (n: nat)
    ensures n <= |t|
    ensures t != [] ==> n >= 1
    ensures forall k :: 0 <= k < n - 1 ==> t[k] != '\n'
    ensures 0 < n < |t| ==> t[n - 1] == '\n'
  {
    if t == [] then 0 else if t[0] == '\n' then 1 else 1 + LineLen(t[1..])
  }

  /** Iterating over a text file: its lines, each with its newline except
      possibly the last. */
  function Lines(t: Str): seq<Str>
    decreases |t|
  {
    if t == [] then [] else [t[..LineLen(t)]] + Lines(t[LineLen(t)..])
  }

  /** file.readline() on a fresh file: the first line, or "" for an empty
      file. */
  function ReadLine(t: Str): Str
  {
    if t == [] then [] else Lines(t)[0]
  }

  function Concat(ls: seq<Str>): Str
  {
    if ls == [] then [] else ls[0] + Concat(ls[1..])
  }

  /** The lines of a file put back together are the file. */
  lemma {:induction false} LinesConcat(t: Str)
    ensures Concat(Lines(t)) == t
    decreases |t|
  {
    if t != [] {
      var n := LineLen(t);
      var rest := Lines(t[n..]);
      assert Lines(t) == [t[..n]] + rest;
      assert ([t[..n]] + rest)[1..] == rest;
      assert Concat(Lines(t)) == t[..n] + Concat(rest);
      LinesConcat(t[n..]);
      assert t[..n] + t[n..] == t;
    }
  }

  /** No line is empty, and a newline only ends a line. */
  lemma {:induction false} LinesShape(t: Str)
    ensures forall i :: 0 <= i < |Lines(t)| ==> Lines(t)[i] != []
    ensures forall i :: 0 <= i < |Lines(t)| ==>
              forall k :: 0 <= k < |Lines(t)[i]| - 1 ==> Lines(t)[i][k] != '\n'
    decreases |t|
  {
    if t != [] {
      var n := LineLen(t);
      var ls, rest := Lines(t), Lines(t[n..]);
      assert ls == [t[..n]] + rest;
      LinesShape(t[n..]);
      forall i | 0 <= i < |ls|
        ensures ls[i] != []
        ensures forall k :: 0 <= k < |ls[i]| - 1 ==> ls[i][k] != '\n'
      {
        if i > 0 {
          assert ls[i] == rest[i - 1];
        }
      }
    }
  }

  // ---------------------------------------------------------------------
  // os.path (posixpath)
  // ---------------------------------------------------------------------

  /** str.rfind for one character: the last index holding c, or -1. */
  function Rfind(s: Str, c: char): (i: int)
    ensures -1 <= i < |s|
    ensures i >= 0 ==> s[i] == c
  {
    if s == [] then -1 else if s[|s| - 1] == c then |s| - 1 else Rfind(s[..|s| - 1], c)
  }

  /** No c follows the index rfind returns. */
  lemma {:induction false} RfindNoneAfter(s: Str, c: char)
    ensures forall j :: Rfind(s, c) < j < |s| ==> s[j] != c
    decreases |s|
  {
    if s != [] && s[|s| - 1] != c {
      RfindNoneAfter(s[..|s| - 1], c);
      assert forall j :: Rfind(s, c) < j < |s| - 1 ==> s[j] == s[..|s| - 1][j];
    }
  }

  predicate AllChar(s: Str, c: char)
  {
    forall k :: 0 <= k < |s| ==> s[k] == c
  }

  /** s without its trailing '/' characters. */
  function StripSlashes(s: Str): (r: Str)
    ensures |r| <= |s| && r == s[..|r|]
    ensures r == [] || r[|r| - 1] != '/'
  {
    if s != [] && s[|s| - 1] == '/' then StripSlashes(s[..|s| - 1]) else s
  }

  /** The directory part of os.path.split: what precedes the last '/',
      with trailing slashes dropped unless it is made of slashes only. */
  function PathHead(p: Str): Str
  {
    var head := p[..Rfind(p, '/') + 1];
    if head != [] && !AllChar(head, '/') then StripSlashes(head) else head
  }

  /** The name part of os.path.split: what follows the last '/'. */
  function PathTail(p: Str): Str
  {
    p[Rfind(p, '/') + 1..]
  }

  /** os.path.split */
  function PathSplit(p: Str): (Str, Str)
  {
    (PathHead(p), PathTail(p))
  }

  /** The tail of a split is the part of the path after its last '/'. */
  lemma PathSplitTail(p: Str)
    ensures '/' !in PathSplit(p).1
    ensures EndsWith(p, PathSplit(p).1)
  {
    var i := Rfind(p, '/') + 1;
    RfindNoneAfter(p, '/');
    var t := p[i..];
    forall k | 0 <= k < |t|
      ensures t[k] != '/'
    {
      assert t[k] == p[i + k];
    }
    assert p[|p| - |t|..] == t;
  }

  /** The name part of a path ends with a suffix free of '/' exactly when
      the path does. */
  lemma PathSplitSuffix(p: Str, suffix: Str)
    requires '/' !in suffix
    ensures EndsWith(PathSplit(p).1, suffix) <==> EndsWith(p, suffix)
  {
    var i := Rfind(p, '/') + 1;
    var t := p[i..];
    assert PathSplit(p).1 == t;
    var m := |p| - |suffix|;
    RfindBeforeSuffix(p, suffix);
    if |suffix| <= |t| {
      assert t[|t| - |suffix|..] == p[m..];
    }
  }

  /** The last '/' of a path comes before any suffix free of '/'. */
  lemma RfindBeforeSuffix(p: Str, suffix: Str)
    requires '/' !in suffix
    ensures EndsWith(p, suffix) ==> Rfind(p, '/') < |p| - |suffix|
  {
    if !EndsWith(p, suffix) {
      return;
    }
    var m := |p| - |suffix|;
    forall k | m <= k < |p|
      ensures p[k] != '/'
    {
      assert p[k] == suffix[k - m];
    }
    RfindBelow(p, '/', m);
  }

  /** When c does not occur from index m on, rfind finds it before m. */
  lemma {:induction false} RfindBelow(s: Str, c: char, m: nat)
    requires m <= |s|
    requires forall k :: m <= k < |s| ==> s[k] != c
    ensures Rfind(s, c) < m
    decreases |s|
  {
    if |s| > m {
      var init := s[..|s| - 1];
      assert s[|s| - 1] != c;
      forall k | m <= k < |init|
        ensures init[k] != c
      {
        assert init[k] == s[k];
      }
      RfindBelow(init, c, m);
    }
  }

  /** A name after a directory that does not end in '/' splits off. */
  lemma PathSplitBeside(dir: Str, name: Str)
    requires dir != [] && dir[|dir| - 1] != '/' && '/' !in name
    ensures PathSplit(dir + "/" + name) == (dir, name)
  {
    var p := dir + "/" + name;
    assert p[|dir|] == '/';
    forall k | |dir| < k < |p|
      ensures p[k] != '/'
    {
      assert p[k] == name[k - |dir| - 1];
    }
    assert Rfind(p, '/') == |dir| by {
      RfindLast(p, '/', |dir|);
    }
    var head := p[..|dir| + 1];
    assert head == dir + "/";
    assert p[|dir| + 1..] == name;
    assert head[|dir| - 1] != '/';
    StripOne(head);
  }

  /** A name without '/' has an empty directory part. */
  lemma PathSplitHere(name: Str)
    requires '/' !in name
    ensures PathSplit(name) == ([], name)
  {
    RfindAbsent(name, '/');
    var r := PathSplit(name);
    assert r.0 == name[..0] == [];
    assert r.1 == name[0..] == name;
  }

  lemma {:induction false} RfindAbsent(s: Str, c: char)
    requires c !in s
    ensures Rfind(s, c) == -1
    decreases |s|
  {
    if s != [] {
      assert s[|s| - 1] != c;
      assert c !in s[..|s| - 1];
      RfindAbsent(s[..|s| - 1], c);
    }
  }

  /** The last c of s is at q when none follows it. */
  lemma RfindLast(s: Str, c: char, q: nat)
    requires q < |s| && s[q] == c && forall k :: q < k < |s| ==> s[k] != c
    ensures Rfind(s, c) == q
  {
  }

  /** os.path.join of two components. */
  function Join(a: Str, b: Str): Str
  {
    if StartsWith(b, "/") then b
    else if a == [] || EndsWith(a, "/") then a + b
    else a + "/" + b
  }

  /** p has no two '/' in a row. */
  predicate NoDoubleSlash(p: Str)
  {
    forall k :: 0 <= k < |p| - 1 ==> !(p[k] == '/' && p[k + 1] == '/')
  }

  /** Splitting a path and joining the parts gives the path back when it
      has no repeated separator. */
  lemma SplitJoin(p: Str)
    requires NoDoubleSlash(p)
    ensures Join(PathSplit(p).0, PathSplit(p).1) == p
  {
    var i := Rfind(p, '/') + 1;
    var h, t := PathHead(p), PathTail(p);
    assert t == p[i..];
    TailStart(p);
    HeadCases(p);
    assert p == p[..i] + t;
  }

  /** The name part never starts with '/'. */
  lemma TailStart(p: Str)
    ensures !StartsWith(PathTail(p), "/")
  {
    var i := Rfind(p, '/') + 1;
    if i < |p| {
      RfindNoneAfter(p, '/');
      assert PathTail(p)[0] == p[i];
    }
  }

  /** The directory part is everything up to the last '/', or that without
      its final '/' when something other than slashes precedes it. */
  lemma HeadCases(p: Str)
    requires NoDoubleSlash(p)
    ensures var h, i := PathHead(p), Rfind(p, '/') + 1;
      || (h == p[..i] && (h == [] || EndsWith(h, "/")))
      || (h != [] && !EndsWith(h, "/") && h + "/" == p[..i])
  {
    var i := Rfind(p, '/') + 1;
    var head := p[..i];
    if head != [] {
      assert head[i - 1] == '/';
      if i == 1 {
        assert AllChar(head, '/');
      }
      if !AllChar(head, '/') {
        assert p[i - 2] != '/';
        StripOne(head);
        assert head == head[..i - 1] + "/";
      }
    }
  }

  /** One trailing '/' after a character that is not a '/' is dropped. */
  lemma StripOne(s: Str)
    requires |s| >= 2 && s[|s| - 1] == '/' && s[|s| - 2] != '/'
    ensures StripSlashes(s) == s[..|s| - 1]
    ensures StripSlashes(s) != [] && !EndsWith(StripSlashes(s), "/")
  {
    var t := s[..|s| - 1];
    assert t[|t| - 1] == s[|s| - 2];
    assert StripSlashes(t) == t;
  }

  /** os.path.splitext: the extension starts at the last '.' of the last
      path component, unless only dots precede it in that component. */
  function SplitExt(p: Str): (Str, Str)
  {
    var sep := Rfind(p, '/');
    var dot := Rfind(p, '.');
    if dot > sep && !AllChar(p[sep + 1..dot], '.') then (p[..dot], p[dot..]) else (p, [])
  }

  /** The root and the extension make up the path; an extension is a dot
      followed by neither a separator nor another dot. */
  lemma SplitExtParts(p: Str)
    ensures SplitExt(p).0 + SplitExt(p).1 == p
    ensures var ext := SplitExt(p).1;
      ext == [] || (ext[0] == '.' && '/' !in ext && '.' !in ext[1..])
  {
    var sep := Rfind(p, '/');
    var dot := Rfind(p, '.');
    if dot > sep && !AllChar(p[sep + 1..dot], '.') {
      RfindNoneAfter(p, '/');
      RfindNoneAfter(p, '.');
      assert p[..dot] + p[dot..] == p;
      var ext := p[dot..];
      forall k | 0 <= k < |ext|
        ensures ext[k] != '/'
      {
        assert ext[k] == p[dot + k];
      }
      forall k | 1 <= k < |ext|
        ensures ext[k] != '.'
      {
        assert ext[k] == p[dot + k];
      }
    }
  }

  /** A module path ending in ".ko" after a named file splits into its base
      and ".ko". */
  lemma SplitExtKo(base: Str)
    requires base != [] && base[|base| - 1] != '/' && base[|base| - 1] != '.'
    ensures SplitExt(base + ".ko") == (base, ".ko")
  {
    var p := base + ".ko";
    assert p[|base|] == '.' && p[|base| + 1] == 'k' && p[|base| + 2] == 'o';
    var dot := Rfind(p, '.');
    RfindLast(p, '.', |base|);
    var sep := Rfind(p, '/');
    assert sep < |base| - 1;
    assert p[|base| - 1] != '.';
    assert !AllChar(p[sep + 1..dot], '.') by {
      assert p[sep + 1..dot][|base| - 1 - (sep + 1)] == p[|base| - 1];
    }
    assert p[..dot] == base;
  }

  /** A modules.order line: a module path ending in ".ko", then the
      whitespace rstrip removes, splits into the path's base and ".ko". */
  lemma KoLine(base: Str, blanks: Str)
    requires base != [] && base[|base| - 1] != '/' && base[|base| - 1] != '.'
    requires forall k :: 0 <= k < |blanks| ==> IsSpace(blanks[k])
    ensures SplitExt(RStrip(base + ".ko" + blanks)) == (base, ".ko")
  {
    var ko := base + ".ko";
    var line := ko + blanks;
    assert line[|ko| - 1] == 'o';
    forall k | |ko| <= k < |line|
      ensures IsSpace(line[k])
    {
      assert line[k] == blanks[k - |ko|];
    }
    RStripAt(line, |ko|);
    assert line[..|ko|] == ko;
    SplitExtKo(base);
  }
}
