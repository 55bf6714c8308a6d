// The early-boot debug console of drivers/soc/uniphier/uniphier-debug.c: a
// minimal printf that writes one character at a time to the UART transmit
// register. The UART is modelled as the stream of characters written to it;
// the busy-wait on the line status register is not modelled.
module UniphierDebug {

  const Nul: char := 0 as char
  const Two32: nat := 0x1_0000_0000
  const Two64: nat := 0x1_0000_0000_0000_0000
  /** 2^63: long long values lie in [-Half64, Half64). */
  const Half64: int := 0x8000_0000_0000_0000
  /** Width of `long` and of pointers (LP64). */
  const LongBits: nat := 64

  // ---------------------------------------------------------------------
  // Characters and strings
  // ---------------------------------------------------------------------

  /** What __putc sends: c, and a carriage return after a line feed. */
  function PutcOut(c: char): (r: seq<char>)
    ensures |r| == (if c == '\n' then 2 else 1)
    ensures r[0] == c
    ensures c == '\n' ==> r[1] == '\r'
  {
    if c == '\n' then [c, '\r'] else [c]
  }

  /** The stream __putc sends for the characters of t, one after another. */
  function Emit(t: seq<char>): seq<char>
  {
    if t == [] then [] else Emit(t[..|t| - 1]) + PutcOut(t[|t| - 1])
  }

  /** The length of the C string held in s: the characters before the
      first NUL, or all of s if it holds none. */
  function StrLen(s: seq<char>): (n: nat)
    ensures n <= |s|
    ensures forall j :: 0 <= j < n ==> s[j] != Nul
    ensures n < |s| ==> s[n] == Nul
  {
    if s == [] then 0 else if s[0] == Nul then 0 else 1 + StrLen(s[1..])
  }

  /** The character at k of a C string whose terminator sits at |s|. */
  function At(s: seq<char>, k: nat): char
  {
    if k < |s| then s[k] else Nul
  }

  // ---------------------------------------------------------------------
  // Numbers
  // ---------------------------------------------------------------------

  /** One digit, lower-case beyond 9. */
  function DigitChar(d: nat): (c: char)
    requires d < 16
    ensures c != Nul && c != '\n' && c != '-'
  {
    if d > 9 then (d - 0xa + 'a' as int) as char else (d + '0' as int) as char
  }

  /** The value of a digit character, the inverse of DigitChar. */
  function DigitValue(c: char): nat
  {
    if 'a' <= c <= 'f' then c as nat - 'a' as nat + 10
    else if '0' <= c <= '9' then c as nat - '0' as nat
    else 0
  }

  /** Is c a digit of radix r? */
  predicate IsDigit(c: char, r: nat)
  {
    ('0' <= c <= '9' && c as nat - '0' as nat < r) || ('a' <= c <= 'f' && c as nat - 'a' as nat + 10 < r)
  }

  predicate Radix(r: nat)
  {
    r == 10 || r == 16
  }

  /** Quot(n, r) and Rem(n, r) for the two radices, written with literal divisors
      so that the arithmetic stays linear. */
  function Quot(n: nat, r: nat): nat
    requires Radix(r)
  {
    if r == 10 then n / 10 else n / 16
  }

  function Rem(n: nat, r: nat): (d: nat)
    requires Radix(r)
    ensures d < r
  {
    if r == 10 then n % 10 else n % 16
  }

  /** x * r for the two radices. */
  function Scale(x: nat, r: nat): nat
    requires Radix(r)
  {
    if r == 10 then x * 10 else x * 16
  }

  /** The digits of n in radix r, most significant first. */
  function Digits(n: nat, r: nat): seq<char>
    requires Radix(r)
    decreases n
  {
    (if Quot(n, r) == 0 then [] else Digits(Quot(n, r), r)) + [DigitChar(Rem(n, r))]
  }

  /** The value of a digit string, most significant first. */
  function Value(ds: seq<char>, r: nat): nat
    requires Radix(r)
  {
    if ds == [] then 0 else Scale(Value(ds[..|ds| - 1], r), r) + DigitValue(ds[|ds| - 1])
  }

  /** r to the power k. */
  function Pow(r: nat, k: nat): nat
    requires Radix(r)
  {
    if k == 0 then 1 else Scale(Pow(r, k - 1), r)
  }

  /** s reversed: the order in which the digit buffer is printed. */
  function Rev(s: seq<char>): (r: seq<char>)
    ensures |r| == |s|
    ensures forall k :: 0 <= k < |s| ==> r[k] == s[|s| - 1 - k]
  {
    if s == [] then [] else [s[|s| - 1]] + Rev(s[..|s| - 1])
  }

  /** One step of the digit loop: the last digit is Rem(u, r), the others are
      the digits of Quot(u, r). */
  lemma DigitsStep(u: nat, r: nat)
    requires Radix(r)
    ensures Quot(u, r) != 0 ==> Digits(u, r) == Digits(Quot(u, r), r) + [DigitChar(Rem(u, r))]
    ensures Quot(u, r) == 0 ==> Digits(u, r) == [DigitChar(Rem(u, r))]
    ensures u != 0 ==> Quot(u, r) < u
  {
  }

  /** The digits of n least significant first, as the buffer holds them. */
  function Lsd(n: nat, r: nat): seq<char>
    requires Radix(r)
    decreases n
  {
    [DigitChar(Rem(n, r))] + (if Quot(n, r) == 0 then [] else Lsd(Quot(n, r), r))
  }

  lemma LsdStep(u: nat, r: nat)
    requires Radix(r)
    ensures Lsd(u, r) == [DigitChar(Rem(u, r))] + (if Quot(u, r) == 0 then [] else Lsd(Quot(u, r), r))
    ensures u != 0 ==> Quot(u, r) < u
    ensures |Lsd(u, r)| >= 1
  {
  }

  /** The buffer read backwards is the printed number. */
  lemma {:induction false} LsdDigits(n: nat, r: nat)
    requires Radix(r)
    ensures Rev(Lsd(n, r)) == Digits(n, r)
    ensures |Lsd(n, r)| == |Digits(n, r)|
    decreases n
  {
    if Quot(n, r) != 0 {
      LsdDigits(Quot(n, r), r);
      assert Lsd(n, r) == [DigitChar(Rem(n, r))] + Lsd(Quot(n, r), r);
      RevCons(DigitChar(Rem(n, r)), Lsd(Quot(n, r), r));
    } else {
      assert Lsd(n, r) == [DigitChar(Rem(n, r))];
    }
  }

  /** Storing the next digit moves it from the pending digits to the
      buffer. */
  lemma LsdPush(stored: seq<char>, u: nat, unum: nat, r: nat)
    requires Radix(r) && stored + Lsd(u, r) == Lsd(unum, r)
    ensures Quot(u, r) != 0 ==> (stored + [DigitChar(Rem(u, r))]) + Lsd(Quot(u, r), r) == Lsd(unum, r)
    ensures Quot(u, r) == 0 ==> stored + [DigitChar(Rem(u, r))] == Lsd(unum, r)
  {
    var c := DigitChar(Rem(u, r));
    if Quot(u, r) != 0 {
      var rest := Lsd(Quot(u, r), r);
      assert Lsd(u, r) == [c] + rest;
      assert stored + ([c] + rest) == (stored + [c]) + rest;
    } else {
      assert Lsd(u, r) == [c] + [];
      assert [c] + [] == [c];
    }
  }

  /** The buffer position of the next digit stays below the digit count. */
  lemma LsdPushLength(stored: seq<char>, u: nat, unum: nat, r: nat)
    requires Radix(r) && stored + Lsd(u, r) == Lsd(unum, r)
    ensures |stored| + 1 <= |Lsd(unum, r)|
    ensures Quot(u, r) != 0 ==> |stored| + 1 + |Lsd(Quot(u, r), r)| == |Lsd(unum, r)|
  {
    assert |stored| + |Lsd(u, r)| == |Lsd(unum, r)|;
    LsdStep(u, r);
  }

  /** A 64-bit value fills at most 20 places of the buffer. */
  lemma LsdBound(n: nat, r: nat)
    requires n < Two64 && Radix(r)
    ensures |Lsd(n, r)| <= 20
  {
    Digits64(n);
    LsdDigits(n, r);
  }

  lemma RevCons(c: char, s: seq<char>)
    ensures Rev([c] + s) == Rev(s) + [c]
  {
  }

  lemma RevSnoc(s: seq<char>, c: char)
    ensures Rev(s + [c]) == [c] + Rev(s)
  {
    assert (s + [c])[..|s|] == s;
  }

  lemma DigitRoundTrip(d: nat)
    requires d < 16
    ensures DigitValue(DigitChar(d)) == d
  {
  }

  /** Parsing the printed digits gives the number back. */
  lemma {:induction false} DigitsValue(n: nat, r: nat)
    requires Radix(r)
    ensures Value(Digits(n, r), r) == n
    decreases n
  {
    var ds := Digits(n, r);
    assert ds[..|ds| - 1] == (if Quot(n, r) == 0 then [] else Digits(Quot(n, r), r));
    DigitRoundTrip(Rem(n, r));
    if Quot(n, r) != 0 {
      DigitsValue(Quot(n, r), r);
    }
  }

  /** The digits are digits of the radix, there is at least one, and the
      first is '0' only when n is 0, which prints as exactly "0". */
  lemma {:induction false} DigitsShape(n: nat, r: nat)
    requires Radix(r)
    ensures |Digits(n, r)| >= 1
    ensures forall k :: 0 <= k < |Digits(n, r)| ==> IsDigit(Digits(n, r)[k], r)
    ensures Digits(n, r)[0] == '0' <==> n == 0
    ensures n == 0 ==> Digits(n, r) == ['0']
    decreases n
  {
    if Quot(n, r) != 0 {
      DigitsShape(Quot(n, r), r);
      assert Digits(n, r)[0] == Digits(Quot(n, r), r)[0];
    }
  }

  /** A value below r^k has at most k digits. */
  lemma {:induction false} DigitsLength(n: nat, r: nat, k: nat)
    requires Radix(r) && k >= 1 && n < Pow(r, k)
    ensures |Digits(n, r)| <= k
    decreases k
  {
    if Quot(n, r) != 0 {
      assert Pow(r, 1) == r;
      assert k >= 2;
      DigitsLength(Quot(n, r), r, k - 1);
    }
  }

  /** A 64-bit value prints in at most 20 decimal or 16 hexadecimal digits,
      well within the 32-character buffer. */
  lemma Digits64(n: nat)
    requires n < Two64
    ensures |Digits(n, 10)| <= 20
    ensures |Digits(n, 16)| <= 16
  {
    assert Pow(10, 4) == 10000;
    assert Pow(10, 8) == 100000000;
    assert Pow(10, 12) == 1000000000000;
    assert Pow(10, 16) == 10000000000000000;
    assert Pow(10, 20) == 100_000_000_000_000_000_000;
    assert Pow(16, 4) == 0x10000;
    assert Pow(16, 8) == 0x1_0000_0000;
    assert Pow(16, 12) == 0x1_0000_0000_0000;
    assert Pow(16, 16) == Two64;
    DigitsLength(n, 10, 20);
    DigitsLength(n, 16, 16);
  }

  /** Text without a line feed goes to the UART unchanged. */
  lemma {:induction false} EmitPlain(t: seq<char>)
    requires forall k :: 0 <= k < |t| ==> t[k] != '\n'
    ensures Emit(t) == t
  {
    if t != [] {
      EmitPlain(t[..|t| - 1]);
    }
  }

  /** No digit in the buffer is a line feed, so __putc sends each alone. */
  lemma {:induction false} LsdPlain(n: nat, r: nat)
    requires Radix(r)
    ensures '\n' !in Lsd(n, r)
    decreases n
  {
    if Quot(n, r) != 0 {
      LsdPlain(Quot(n, r), r);
    }
  }

  lemma DigitsPlain(n: nat, r: nat)
    requires Radix(r)
    ensures Emit(Digits(n, r)) == Digits(n, r)
  {
    DigitsShape(n, r);
    EmitPlain(Digits(n, r));
  }

  /** Emit distributes over concatenation. */
  lemma {:induction false} EmitAppend(a: seq<char>, b: seq<char>)
    ensures Emit(a + b) == Emit(a) + Emit(b)
    decreases |b|
  {
    if b == [] {
      assert a + b == a;
    } else {
      assert (a + b)[..|a + b| - 1] == a + b[..|b| - 1];
      EmitAppend(a, b[..|b| - 1]);
    }
  }

  // ---------------------------------------------------------------------
  // Arguments and conversions
  // ---------------------------------------------------------------------

  /** A variadic argument: an integer of any C integer type, a string, or a
      pointer given by its address. */
  datatype Arg = Int(v: int) | Str(s: seq<char>) | Ptr(addr: nat)

  /** The width va_arg reads for a length count: int, long, long long. */
  function Width(lcount: nat): (w: nat)
    ensures w == 32 || w == 64
    ensures lcount == 0 ==> w == 32
    ensures lcount == 1 ==> w == LongBits
    ensures lcount >= 2 ==> w == 64
  {
    if lcount > 1 then 64 else if lcount == 1 then LongBits else 32
  }

  function Modulus(w: nat): nat
    requires w == 32 || w == 64
  {
    if w == 32 then Two32 else Two64
  }

  /** A value read as an unsigned integer of w bits: its residue. */
  function Unsigned(v: int, w: nat): (r: nat)
    requires w == 32 || w == 64
    ensures r < Modulus(w)
    ensures 0 <= v < Modulus(w) ==> r == v
  {
    if w == 32 then v % 0x1_0000_0000 else v % 0x1_0000_0000_0000_0000
  }

  /** A value read as a signed integer of w bits: the residue in
      [-2^(w-1), 2^(w-1)). */
  function Signed(v: int, w: nat): (r: int)
    requires w == 32 || w == 64
    ensures -(Modulus(w) / 2) as int <= r < Modulus(w) / 2
    ensures -(Modulus(w) / 2) as int <= v < Modulus(w) / 2 ==> r == v
  {
    var m := Unsigned(v, w);
    if m >= Modulus(w) / 2 then m - Modulus(w) else m
  }

  /** %d of a long long: a minus sign for a negative value, then the digits
      of the negation taken as an unsigned long long. */
  function SignedText(num: int): seq<char>
    requires -Half64 <= num < Half64
  {
    if num < 0 then ['-'] + Digits((-num) % Two64, 10) else Digits(num, 10)
  }

  /** The negation of the most negative long long wraps to 2^63, which is
      its magnitude: every value prints as its sign and its magnitude. */
  lemma SignedMagnitude(num: int)
    requires -Half64 <= num < Half64
    ensures num < 0 ==> SignedText(num) == ['-'] + Digits(-num, 10)
    ensures num >= 0 ==> SignedText(num) == Digits(num, 10)
    ensures SignedText(num)[0] == '-' <==> num < 0
  {
    DigitsShape(if num < 0 then -num else num, 10);
  }

  datatype Conv = Text(out: seq<char>, rest: seq<Arg>) | Mismatch

  /** The switch of my_vprintk: what a conversion character with a length
      count prints and which arguments remain; Mismatch when the argument
      is missing or of the wrong kind. */
  function Convert(c: char, lcount: nat, args: seq<Arg>): Conv
  {
    if c == '%' then Text(['%'], args)
    else if c == 'i' || c == 'd' then
      if args == [] || !args[0].Int? then Mismatch
      else Text(SignedText(Signed(args[0].v, Width(lcount))), args[1..])
    else if c == 's' then
      if args == [] || !args[0].Str? then Mismatch
      else Text(Emit(args[0].s[..StrLen(args[0].s)]), args[1..])
    else if c == 'p' then
      if args == [] || !args[0].Ptr? then Mismatch
      else
        Text(PointerText(Unsigned(args[0].addr, LongBits)), args[1..])
    else if c == 'x' then
      if args == [] || !args[0].Int? then Mismatch
      else Text(Digits(Unsigned(args[0].v, Width(lcount)), 16), args[1..])
    else if c == 'u' then
      if args == [] || !args[0].Int? then Mismatch
      else Text(Digits(Unsigned(args[0].v, Width(lcount)), 10), args[1..])
    else Text([], args)
  }

  /** Any other conversion character prints nothing and takes no argument. */
  lemma UnknownConversion(c: char, lcount: nat, args: seq<Arg>)
    requires c !in {'%', 'i', 'd', 's', 'p', 'x', 'u'}
    ensures Convert(c, lcount, args) == Text([], args)
  {
  }

  /** %p: "0x" for a non-NULL pointer, then the hex digits. */
  function PointerText(u: nat): seq<char>
  {
    (if u != 0 then ['0', 'x'] else []) + Digits(u, 16)
  }

  /** The string "0x" is sent as it is. */
  lemma HexPrefix()
    ensures StrLen(['0', 'x']) == 2
    ensures Emit(['0', 'x'][..2]) == ['0', 'x']
  {
    assert ['0', 'x'][..1] == ['0'];
    assert ['0'][..0] == [];
  }

  /** %p prints "0x" exactly for a non-NULL pointer, and NULL as "0". */
  lemma PointerPrefix(u: nat)
    ensures u == 0 ==> PointerText(u) == ['0']
    ensures u != 0 ==> PointerText(u)[..2] == ['0', 'x'] && PointerText(u)[2..] == Digits(u, 16)
    ensures u != 0 ==> Value(PointerText(u)[2..], 16) == u
  {
    DigitsShape(u, 16);
    DigitsValue(u, 16);
  }

  // ---------------------------------------------------------------------
  // The format loop
  // ---------------------------------------------------------------------

  /** The outcome of formatting: the characters sent to the UART, an
      argument list that does not match the format, or a read beyond the
      format string's terminator. */
  datatype Outcome = Done(out: seq<char>) | BadArgs | Overrun

  function Prepend(t: seq<char>, o: Outcome): Outcome
  {
    if o.Done? then Done(t + o.out) else o
  }

  /** The number of 'l' characters from k on. */
  function CountL(s: seq<char>, k: nat): (n: nat)
    ensures k + n <= |s| || (k > |s| && n == 0)
    ensures forall j :: k <= j < k + n ==> s[j] == 'l'
    ensures At(s, k + n) != 'l'
    decreases |s| - k
  {
    if k < |s| && s[k] == 'l' then 1 + CountL(s, k + 1) else 0
  }

  /** One directive after a '%' at k - 1: its length count, its conversion
      character and the index after it. As written, a 'z' sets the count but
      is itself taken as the conversion character; corrected, the character
      after the 'z' is the conversion. */
  datatype Directive = Directive(lcount: nat, conv: char, next: nat)

  function Parse(s: seq<char>, k: nat, asWritten: bool): (d: Directive)
    requires k <= |s|
    ensures d.next > k
    ensures d.conv != Nul ==> d.next <= |s|
  {
    var n := CountL(s, k);
    var m := k + n;
    if At(s, m) == 'z' then
      if asWritten then Directive(1, 'z', m + 1) else Directive(1, At(s, m + 1), m + 2)
    else Directive(n, At(s, m), m + 1)
  }

  /** my_vprintk from index i of the format with the arguments args. The
      corrected loop ends at a NUL met where a conversion was expected; the
      loop as written steps over it and reads on. */
  function Run(s: seq<char>, i: nat, args: seq<Arg>, asWritten: bool): Outcome
    requires i <= |s|
    decreases |s| - i
  {
    var c := At(s, i);
    if c == Nul then Done([])
    else if c != '%' then Prepend(PutcOut(c), Run(s, i + 1, args, asWritten))
    else
      var d := Parse(s, i + 1, asWritten);
      if d.conv == Nul && !asWritten then Done([])
      else if d.next > |s| then Overrun
      else match Convert(d.conv, d.lcount, args)
        case Mismatch => BadArgs
        case Text(t, rest) => Prepend(t, Run(s, d.next, rest, asWritten))
  }

  /** my_vprintk with the two corrections below. */
  function Format(s: seq<char>, args: seq<Arg>): Outcome
  {
    Run(s, 0, args, false)
  }

  /** my_vprintk as written. */
  function FormatAsWritten(s: seq<char>, args: seq<Arg>): Outcome
  {
    Run(s, 0, args, true)
  }

  /** Text without '%' is sent as it is, through __putc. */
  lemma {:induction false} LiteralText(s: seq<char>, i: nat, args: seq<Arg>)
    requires i <= |s|
    requires forall k :: i <= k < |s| ==> s[k] != '%' && s[k] != Nul
    ensures Run(s, i, args, false) == Done(Emit(s[i..]))
    decreases |s| - i
  {
    if i == |s| {
      assert s[i..] == [];
    } else {
      LiteralText(s, i + 1, args);
      assert s[i..] == [s[i]] + s[i + 1..];
      EmitAppend([s[i]], s[i + 1..]);
      assert Emit([s[i]]) == PutcOut(s[i]) by {
        assert [s[i]][..0] == [];
      }
    }
  }

  /** The corrected loop never reads beyond the format's terminator. */
  lemma {:induction false} NeverOverruns(s: seq<char>, i: nat, args: seq<Arg>)
    requires i <= |s|
    ensures !Run(s, i, args, false).Overrun?
    decreases |s| - i
  {
    var c := At(s, i);
    if c != Nul {
      if c != '%' {
        NeverOverruns(s, i + 1, args);
      } else {
        var d := Parse(s, i + 1, false);
        if d.conv != Nul {
          match Convert(d.conv, d.lcount, args)
          case Mismatch =>
          case Text(t, rest) => NeverOverruns(s, d.next, rest);
        }
      }
    }
  }

  /** A plain character is sent through __putc and the loop moves on. */
  lemma RunLiteral(s: seq<char>, i: nat, args: seq<Arg>, o: seq<char>)
    requires i <= |s| && At(s, i) != Nul && At(s, i) != '%'
    ensures i + 1 <= |s|
    ensures Prepend(o, Run(s, i, args, false))
         == Prepend(o + PutcOut(At(s, i)), Run(s, i + 1, args, false))
  {
    var r := Run(s, i + 1, args, false);
    if r.Done? {
      assert o + (PutcOut(At(s, i)) + r.out) == (o + PutcOut(At(s, i))) + r.out;
    }
  }

  /** A directive whose conversion is not NUL prints its conversion and the
      loop goes on after it, with the arguments the conversion left; when
      the whole run succeeds, so does the conversion. */
  lemma RunDirective(s: seq<char>, i: nat, args: seq<Arg>, o: seq<char>)
    requires i < |s| && s[i] == '%'
    requires Parse(s, i + 1, false).conv != Nul
    requires Prepend(o, Run(s, i, args, false)).Done?
    ensures var d := Parse(s, i + 1, false);
      && d.next <= |s|
      && Convert(d.conv, d.lcount, args).Text?
      && Prepend(o, Run(s, i, args, false))
         == Prepend(o + Convert(d.conv, d.lcount, args).out,
                    Run(s, d.next, Convert(d.conv, d.lcount, args).rest, false))
  {
    var d := Parse(s, i + 1, false);
    match Convert(d.conv, d.lcount, args)
    case Mismatch =>
    case Text(t, rest) =>
      var r := Run(s, d.next, rest, false);
      if r.Done? {
        assert o + (t + r.out) == (o + t) + r.out;
      }
  }

  /** The NUL terminating the format ends the output. */
  lemma RunEnd(s: seq<char>, i: nat, args: seq<Arg>, o: seq<char>)
    requires i <= |s| && At(s, i) == Nul
    ensures Prepend(o, Run(s, i, args, false)) == Done(o)
  {
    assert o + [] == o;
  }

  lemma PrependDone(o: seq<char>)
    ensures Prepend(o, Done([])) == Done(o)
  {
    assert o + [] == o;
  }

  /** A NUL where a conversion was expected ends the output. */
  lemma RunDirectiveNul(s: seq<char>, i: nat, args: seq<Arg>)
    requires i < |s| && s[i] == '%'
    requires Parse(s, i + 1, false).conv == Nul
    ensures Run(s, i, args, false) == Done([])
  {
  }

  /** As written, a '%' at the end of the format steps over the terminator
      and the next read is beyond the string. */
  lemma TrailingPercentAsWritten()
    ensures FormatAsWritten(['a', '%'], []) == Overrun
    ensures Format(['a', '%'], []) == Done(['a'])
  {
    var s := ['a', '%'];
    assert Run(s, 2, [], false) == Done([]);
    assert Parse(s, 2, true) == Directive(0, Nul, 3);
  }

  /** As written, "%zu" prints "u" and leaves its argument unused; corrected
      it prints the argument in decimal. */
  lemma SizeTAsWritten()
    ensures FormatAsWritten(['%', 'z', 'u'], [Int(5)]) == Done(['u'])
    ensures Format(['%', 'z', 'u'], [Int(5)]) == Done(['5'])
  {
    var s := ['%', 'z', 'u'];
    assert CountL(s, 1) == 0;
    assert Parse(s, 1, true) == Directive(1, 'z', 2);
    assert Run(s, 3, [Int(5)], true) == Done([]);
    assert Run(s, 2, [Int(5)], true) == Done(['u']);
    assert Parse(s, 1, false) == Directive(1, 'u', 3);
    assert Digits(5, 10) == ['5'];
    assert Run(s, 3, [], false) == Done([]);
  }

  /** Corrected, %z reads a long, like %l. */
  lemma SizeTIsLong(s: seq<char>, k: nat)
    requires k < |s| && s[k] == 'z'
    ensures Parse(s, k, false) == Directive(1, At(s, k + 1), k + 2)
    ensures Width(Parse(s, k, false).lcount) == LongBits
  {
  }

  // ---------------------------------------------------------------------
  // The console
  // ---------------------------------------------------------------------

  class Uart {
    /** Every character written to UART_TX, oldest first. */
    var out: seq<char>

    constructor ()
      ensures out == []
    {
      out := [];
    }

    /** uart_putc: one write to the transmit register. */
    method UartPutc(c: char)
      modifies this
      ensures out == old(out) + [c]
    {
      out := out + [c];
    }

    /** __putc */
    method Putc(c: char)
      modifies this
      ensures out == old(out) + PutcOut(c)
    {
      UartPutc(c);
      if c == '\n' {
        UartPutc('\r');
      }
    }

    /** __puts: every character up to the NUL goes through __putc. */
    method Puts(s: seq<char>)
      modifies this
      ensures out == old(out) + Emit(s[..StrLen(s)])
    {
      var i := 0;
      while At(s, i) != Nul
        invariant i <= StrLen(s)
        invariant out == old(out) + Emit(s[..i])
        decreases |s| - i
      {
        Putc(s[i]);
        assert s[..i + 1][..i] == s[..i];
        i := i + 1;
      }
    }

    /** unsigned_num_print: the digits are stored least significant first
        in buf by the do-while loop, then sent from the last one down. */
    method UnsignedNumPrint(unum: nat, radix: nat)
      requires unum < Two64 && Radix(radix)
      modifies this
      ensures out == old(out) + Digits(unum, radix)
    {
      var buf, n := FillDigits(unum, radix);
      LsdDigits(unum, radix);
      LsdPlain(unum, radix);
      PutsReversed(buf, n);
    }

    /** The second loop of unsigned_num_print: buf[n - 1] down to buf[0]. */
    method PutsReversed(buf: array<char>, n: nat)
      requires n <= buf.Length
      requires '\n' !in buf[..n]
      modifies this
      ensures out == old(out) + Rev(buf[..n])
    {
      var i := n;
      while i > 0
        invariant 0 <= i <= n
        invariant out == old(out) + Rev(buf[..n])[..n - i]
      {
        i := i - 1;
        assert buf[i] == buf[..n][i];
        Putc(buf[i]);
        assert Rev(buf[..n])[..n - i] == Rev(buf[..n])[..n - i - 1] + [buf[i]];
      }
    }

    /** %d and %i: a minus sign for a negative value, then the magnitude. */
    method SignedNumPrint(num: int)
      requires -Half64 <= num < Half64
      modifies this
      ensures out == old(out) + SignedText(num)
    {
      var unum: nat;
      if num < 0 {
        Putc('-');
        unum := (-num) % Two64;
      } else {
        unum := num;
      }
      UnsignedNumPrint(unum, 10);
    }

    /** %p: "0x" unless the address is NULL, then the hex digits. */
    method PointerPrint(unum: nat)
      requires unum < Two64
      modifies this
      ensures out == old(out) + PointerText(unum)
    {
      if unum != 0 {
        HexPrefix();
        Puts(['0', 'x']);
      }
      UnsignedNumPrint(unum, 16);
    }

    /** The switch of my_vprintk for one conversion, taking its argument
        with va_arg. */
    method Conversion(c: char, lcount: nat, args: seq<Arg>) returns (rest: seq<Arg>)
      requires Convert(c, lcount, args).Text?
      modifies this
      ensures out == old(out) + Convert(c, lcount, args).out
      ensures rest == Convert(c, lcount, args).rest
    {
      if c == '%' {
        Putc('%');
        return args;
      } else if c == 'i' || c == 'd' {
        SignedNumPrint(Signed(args[0].v, Width(lcount)));
        return args[1..];
      } else if c == 's' {
        Puts(args[0].s);
        return args[1..];
      } else if c == 'p' {
        PointerPrint(Unsigned(args[0].addr, LongBits));
        return args[1..];
      } else if c == 'x' {
        var unum := Unsigned(args[0].v, Width(lcount));
        UnsignedNumPrint(unum, 16);
        return args[1..];
      } else if c == 'u' {
        var unum := Unsigned(args[0].v, Width(lcount));
        UnsignedNumPrint(unum, 10);
        return args[1..];
      }
      return args;
    }

    /** my_vprintk, corrected: the character after a 'z' is the conversion,
        and a NUL where a conversion was expected ends the output. The
        caller passes arguments that match the format. */
    method Vprintk(fmt: seq<char>, args: seq<Arg>)
      requires Format(fmt, args).Done?
      modifies this
      ensures out == old(out) + Format(fmt, args).out
    {
      var i := 0;
      var rest := args;
      ghost var produced: seq<char> := [];
      assert Prepend([], Run(fmt, 0, args, false)) == Format(fmt, args);
      while true
        invariant i <= |fmt|
        invariant out == old(out) + produced
        invariant Prepend(produced, Run(fmt, i, rest, false)) == Format(fmt, args)
        decreases |fmt| - i
      {
        var c := At(fmt, i);
        if c == Nul {
          RunEnd(fmt, i, rest, produced);
          break;
        }
        if c != '%' {
          RunLiteral(fmt, i, rest, produced);
          Putc(c);
          produced := produced + PutcOut(c);
          i := i + 1;
          continue;
        }
        var stop, k;
        ghost var t;
        stop, rest, k, t := PrintDirective(fmt, i, rest, produced);
        if stop {
          PrependDone(produced);
          break;
        }
        produced := produced + t;
        i := k;
      }
    }

    /** One '%' directive of my_vprintk at i: its conversion is printed, or
        a NUL conversion character stops the loop. */
    method PrintDirective(fmt: seq<char>, i: nat, args: seq<Arg>, ghost produced: seq<char>)
      returns (stop: bool, rest: seq<Arg>, k: nat, ghost t: seq<char>)
      requires i < |fmt| && fmt[i] == '%'
      requires Prepend(produced, Run(fmt, i, args, false)).Done?
      modifies this
      ensures stop ==> Run(fmt, i, args, false) == Done([]) && out == old(out)
      ensures !stop ==> i < k <= |fmt| && out == old(out) + t
      ensures !stop ==> Prepend(produced, Run(fmt, i, args, false)) == Prepend(produced + t, Run(fmt, k, rest, false))
    {
      var lcount, c;
      lcount, c, k := ReadDirective(fmt, i + 1);
      if c == Nul {
        RunDirectiveNul(fmt, i, args);
        return true, args, k, [];
      }
      RunDirective(fmt, i, args, produced);
      t := Convert(c, lcount, args).out;
      rest := Conversion(c, lcount, args);
      stop := false;
    }
  }

  /** The part of my_vprintk after a '%' at k - 1: the 'l' loop, then 'z'. */
  method ReadDirective(fmt: seq<char>, k0: nat) returns (lcount: nat, c: char, k: nat)
    requires k0 <= |fmt|
    ensures Directive(lcount, c, k) == Parse(fmt, k0, false)
  {
    lcount := 0;
    k := k0;
    c := At(fmt, k);
    k := k + 1;
    while c == 'l'
      invariant k0 + 1 <= k <= |fmt| + 1
      invariant c == At(fmt, k - 1)
      invariant k - 1 == k0 + lcount
      invariant CountL(fmt, k0) == lcount + CountL(fmt, k - 1)
      decreases |fmt| + 1 - k
    {
      lcount := lcount + 1;
      c := At(fmt, k);
      k := k + 1;
    }
    if c == 'z' {
      lcount := 1;
      c := At(fmt, k);
      k := k + 1;
    }
  }

  /** The first loop of unsigned_num_print: buf[..n] holds the digits of
      unum, least significant first. */
  method FillDigits(unum: nat, radix: nat) returns (buf: array<char>, n: nat)
    requires unum < Two64 && Radix(radix)
    ensures buf.Length == 32 && n <= 20
    ensures buf[..n] == Lsd(unum, radix)
  {
    LsdBound(unum, radix);
    buf := new char[32];
    var i := 0;
    var u: nat := unum;
    while true
      invariant buf.Length == 32
      invariant i + |Lsd(u, radix)| <= 20
      invariant buf[..i] + Lsd(u, radix) == Lsd(unum, radix)
      decreases 20 - i
    {
      ghost var stored := buf[..i];
      LsdPush(stored, u, unum, radix);
      LsdPushLength(stored, u, unum, radix);
      var c := DigitChar(Rem(u, radix));
      buf[i] := c;
      assert buf[..i + 1] == stored + [c];
      i := i + 1;
      u := Quot(u, radix);
      if u == 0 {
        break;
      }
    }
    n := i;
  }
}
