/**
 * The textual IR code the dock sends and receives, `<device>;0x<command>;<repeat>;<toggle>`,
 * and the whole-string match of the pattern
 * `[0-9]?[0-9][;]0[xX][0-9a-fA-F]+[;][0-9]+[;][0-9]` that the handler applies with `String.matches`.
 *
 * None of the pattern's character classes contains `;`, so a string matches exactly when splitting
 * it at `;` gives four fields of the right shapes.  `Parse` does that, and `IsIrCode` is `Parse`
 * succeeding; `Format` rebuilds the text, and the two are proved inverse.
 */
module IrCodes {
  import opened Options

  /** `[0-9]`: only the ASCII digits (the pattern is not compiled with UNICODE_CHARACTER_CLASS). */
  predicate IsDigit(c: char) { '0' <= c <= '9' }

  /** `[0-9a-fA-F]` */
  predicate IsHexDigit(c: char) { IsDigit(c) || 'a' <= c <= 'f' || 'A' <= c <= 'F' }

  predicate AllDigits(s: string) { forall i :: 0 <= i < |s| ==> IsDigit(s[i]) }

  predicate AllHexDigits(s: string) { forall i :: 0 <= i < |s| ==> IsHexDigit(s[i]) }

  const Separator: char := ';'

  /** The fields joined with `sep` between each neighbouring pair. */
  function Join(parts: seq<string>, sep: char): string
    requires |parts| >= 1
    decreases |parts|
  {
    if |parts| == 1 then parts[0] else parts[0] + [sep] + Join(parts[1..], sep)
  }

  /** The maximal `sep`-free fields of `s`, in order; the empty string has one empty field. */
  function Split(s: string, sep: char): (parts: seq<string>)
    ensures |parts| >= 1
    ensures forall i :: 0 <= i < |parts| ==> sep !in parts[i]
    ensures Join(parts, sep) == s
    decreases |s|
  {
    if s == [] then [[]]
    else
      var rest := Split(s[1..], sep);
      if s[0] == sep then
        assert ([[]] + rest)[1..] == rest;
        [[]] + rest
      else
        var parts := [[s[0]] + rest[0]] + rest[1..];
        assert parts[1..] == rest[1..];
        assert |rest| > 1 ==> Join(rest, sep) == rest[0] + [sep] + Join(rest[1..], sep);
        parts
  }

  /** Splitting a separator-free word followed by `t` glues the word onto the first field of `t`. */
  lemma {:induction false} SplitPrefix(w: string, t: string, sep: char)
    requires sep !in w
    ensures Split(w + t, sep) == [w + Split(t, sep)[0]] + Split(t, sep)[1..]
    decreases |w|
  {
    if w != [] {
      assert (w + t)[1..] == w[1..] + t;
      assert (w + t)[0] == w[0];
      SplitPrefix(w[1..], t, sep);
      assert [w[0]] + (w[1..] + Split(t, sep)[0]) == w + Split(t, sep)[0];
    } else {
      var q := Split(t, sep);
      assert w + t == t && w + q[0] == q[0];
      assert [q[0]] + q[1..] == q;
    }
  }

  /** `Split` undoes `Join` when no field contains the separator. */
  lemma {:induction false} SplitJoin(parts: seq<string>, sep: char)
    requires |parts| >= 1
    requires forall i :: 0 <= i < |parts| ==> sep !in parts[i]
    ensures Split(Join(parts, sep), sep) == parts
    decreases |parts|
  {
    if |parts| == 1 {
      SplitPrefix(parts[0], [], sep);
      assert parts[0] + [] == parts[0];
    } else {
      var rest := parts[1..];
      SplitJoin(rest, sep);
      var t := [sep] + Join(rest, sep);
      assert parts[0] + [sep] + Join(rest, sep) == parts[0] + t;
      assert t[1..] == Join(rest, sep);
      assert Split(t, sep) == [[]] + rest;
      SplitPrefix(parts[0], t, sep);
      assert parts[0] + [] == parts[0];
    }
  }

  /** The four fields of an IR code; `radix` is the `x` or `X` after the command's leading `0`. */
  datatype IrCode = IrCode(device: string, radix: char, command: string, repeat: string, toggle: char)

  /** The shape the pattern demands of each field. */
  predicate Valid(c: IrCode) {
    && 1 <= |c.device| <= 2 && AllDigits(c.device)
    && (c.radix == 'x' || c.radix == 'X')
    && |c.command| >= 1 && AllHexDigits(c.command)
    && |c.repeat| >= 1 && AllDigits(c.repeat)
    && IsDigit(c.toggle)
  }

  function Fields(c: IrCode): seq<string> {
    [c.device, ['0', c.radix] + c.command, c.repeat, [c.toggle]]
  }

  /** The text of an IR code as the dock exchanges it. */
  function Format(c: IrCode): string {
    Join(Fields(c), Separator)
  }

  /** Reads an IR code out of text that matches the pattern in full; `None` for any other text. */
  function Parse(s: string): (r: Option<IrCode>)
    ensures r.Some? ==> Valid(r.value) && Format(r.value) == s
  {
    var p := Split(s, Separator);
    if && |p| == 4
       && 1 <= |p[0]| <= 2 && AllDigits(p[0])
       && |p[1]| >= 3 && p[1][0] == '0' && (p[1][1] == 'x' || p[1][1] == 'X') && AllHexDigits(p[1][2..])
       && |p[2]| >= 1 && AllDigits(p[2])
       && |p[3]| == 1 && IsDigit(p[3][0])
    then
      var c := IrCode(p[0], p[1][1], p[1][2..], p[2], p[3][0]);
      assert ['0', c.radix] + c.command == p[1];
      assert [c.toggle] == p[3];
      assert Fields(c) == p;
      Some(c)
    else
      None
  }

  /** The text of a code spelled out character class by character class, as the pattern reads. */
  lemma FormatText(c: IrCode)
    requires Valid(c)
    ensures Format(c) == c.device + [Separator, '0', c.radix] + c.command + [Separator] + c.repeat + [Separator, c.toggle]
    ensures multiset(Format(c))[Separator] == 3
  {
    var f := Fields(c);
    assert Join(f[3..], Separator) == [c.toggle];
    assert Join(f[2..], Separator) == c.repeat + [Separator] + [c.toggle] by {
      assert f[2..][1..] == f[3..];
    }
    assert Join(f[1..], Separator) == ['0', c.radix] + c.command + [Separator] + (c.repeat + [Separator] + [c.toggle]) by {
      assert f[1..][1..] == f[2..];
    }
    assert Separator !in c.device && Separator !in c.command && Separator !in c.repeat by {
      assert forall j :: 0 <= j < |c.device| ==> IsDigit(c.device[j]);
      assert forall j :: 0 <= j < |c.command| ==> IsHexDigit(c.command[j]);
      assert forall j :: 0 <= j < |c.repeat| ==> IsDigit(c.repeat[j]);
    }
    assert multiset(c.device)[Separator] == 0 && multiset(c.command)[Separator] == 0 && multiset(c.repeat)[Separator] == 0;
  }

  /**
   * `s.matches("[0-9]?[0-9][;]0[xX][0-9a-fA-F]+[;][0-9]+[;][0-9]")`: a matching text has at least
   * nine characters, starts with a digit, ends with `;` and a digit, and holds exactly three `;`.
   */
  predicate IsIrCode(s: string)
    ensures IsIrCode(s) ==>
      && 9 <= |s| && IsDigit(s[0]) && s[|s| - 2] == Separator && IsDigit(s[|s| - 1])
  {
    match Parse(s)
    case None => false
    case Some(c) => FormatText(c); true
  }

  /** Every well-formed IR code reads back as itself. */
  lemma ParseFormat(c: IrCode)
    requires Valid(c)
    ensures Parse(Format(c)) == Some(c)
  {
    var f := Fields(c);
    forall i | 0 <= i < |f| ensures Separator !in f[i] {
      if i == 1 {
        assert forall j :: 0 <= j < |f[1]| ==> f[1][j] == '0' || f[1][j] == c.radix || f[1][j] == c.command[j - 2];
      }
    }
    SplitJoin(f, Separator);
    assert f[1][2..] == c.command;
  }

  /** The text accepted by the pattern is exactly the text of the well-formed IR codes. */
  lemma IsIrCodeExactly(s: string)
    ensures IsIrCode(s) <==> exists c :: Valid(c) && Format(c) == s
  {
    if exists c :: Valid(c) && Format(c) == s {
      var c :| Valid(c) && Format(c) == s;
      ParseFormat(c);
    }
  }
}
