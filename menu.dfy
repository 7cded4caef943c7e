/**
 * The command-line client's menu: the `MenuCommand` enum with its decoder from
 * a number (`TryFrom<u8>`), its rendering (`Display`), the menu text built from
 * all variants (`menu_options`) and the retry-until-valid prompt loop
 * (`read_until_success`).
 */
module Menu {
  import opened Wrappers

  newtype u8 = x: int | 0 <= x < 256

  /** The client's boxed dynamic error, kept down to its message. */
  datatype CommonError = CommonError(message: string)

  datatype MenuCommand = Exit | Login | New

  /** The variants in declaration order, as `MenuCommand::iter()` yields them. */
  const AllCommands: seq<MenuCommand> := [Exit, Login, New]

  /** The position of a variant in declaration order. */
  function Ordinal(c: MenuCommand): (n: u8)
    ensures n < |AllCommands| as u8 && AllCommands[n] == c
  {
    match c
    case Exit => 0
    case Login => 1
    case New => 2
  }

  /** `MenuCommand::try_from`: the number of a menu entry back to its command. */
  function TryFrom(value: u8): (r: Result<MenuCommand, CommonError>)
    ensures r.Ok? <==> value as int < |AllCommands|
    ensures r.Ok? ==> r.value == AllCommands[value] && Ordinal(r.value) == value
    ensures r.Err? ==> r.error == CommonError("oops")
  {
    match value
    case 0 => Ok(Exit)
    case 1 => Ok(Login)
    case 2 => Ok(New)
    case _ => Err(CommonError("oops"))
  }

  /** `read_menu_command_from_stdin` after the number has been read: `?` on the read, then `try_from`. */
  function ReadMenuCommand(input: Result<u8, CommonError>): (r: Result<MenuCommand, CommonError>)
    ensures r.Ok? <==> input.Ok? && input.value < |AllCommands| as u8
    ensures r.Ok? ==> r.value == AllCommands[input.value]
    ensures input.Ok? && r.Err? ==> r.error == CommonError("oops")
    ensures input.Err? ==> r == Err(input.error)
  {
    match input
    case Err(e) => Err(e)
    case Ok(n) => TryFrom(n)
  }

  /** The decimal digit for a number below ten. */
  function DigitChar(d: u8): (ch: char)
    requires d < 10
    ensures '0' <= ch <= '9'
  {
    (48 + d as int) as char
  }

  /** The number a decimal digit stands for; absent for any other character. */
  function DigitValue(ch: char): (d: Option<u8>)
    ensures d.Some? <==> '0' <= ch <= '9'
    ensures d.Some? ==> d.value < 10 && DigitChar(d.value) == ch
  {
    if '0' <= ch <= '9' then Some((ch as int - 48) as u8) else None
  }

  /** `impl Display for MenuCommand`: the menu entry shown to the user. */
  function Display(c: MenuCommand): (s: string)
    // the entry opens with the number that selects it, then ". " and a label
    ensures |s| > 3 && s[0] == DigitChar(Ordinal(c)) && s[1..3] == ". "
    ensures '\n' !in s
  {
    match c
    case Exit => "0. Exit"
    case Login => "1. Login"
    case New => "2. New"
  }

  /** The displays of a sequence of commands, in the same order (the `map(|c| c.to_string())`). */
  function Displays(cs: seq<MenuCommand>): (lines: seq<string>)
    ensures |lines| == |cs|
    ensures forall i | 0 <= i < |cs| :: lines[i] == Display(cs[i])
  {
    seq(|cs|, i requires 0 <= i < |cs| => Display(cs[i]))
  }

  /** `join`: the parts with `sep` between each two of them, and none at either end. */
  function Join(parts: seq<string>, sep: string): (r: string)
    ensures |parts| == 0 ==> r == ""
    ensures |parts| > 0 ==> parts[0] <= r
    ensures |parts| > 0 ==> EndsWith(r, parts[|parts| - 1])
  {
    if |parts| == 0 then ""
    else if |parts| == 1 then parts[0]
    else
      var tail := Join(parts[1..], sep);
      var last := parts[|parts| - 1];
      assert EndsWith(parts[0] + sep + tail, last) by {
        assert (parts[0] + sep + tail)[|parts[0] + sep + tail| - |last|..] == tail[|tail| - |last|..];
      }
      parts[0] + sep + tail
  }

  /** `t` is a suffix of `s`. */
  predicate EndsWith(s: string, t: string)
  {
    |t| <= |s| && s[|s| - |t|..] == t
  }

  /** Cutting a string at every occurrence of `sep`: the reference that undoes `Join`. */
  function Split(s: string, sep: char): (r: seq<string>)
    ensures |r| >= 1
    ensures forall i | 0 <= i < |r| :: sep !in r[i]
  {
    if |s| == 0 then [""]
    else
      var rest := Split(s[1..], sep);
      if s[0] == sep then [""] + rest
      else [[s[0]] + rest[0]] + rest[1..]
  }

  /** `menu_options`: every command's display in declaration order, one per line. */
  function MenuOptions(): (r: string)
    // cut at its newlines, the menu gives back every command's display, in order
    ensures Split(r, '\n') == Displays(AllCommands)
  {
    SplitJoin(Displays(AllCommands), '\n');
    Join(Displays(AllCommands), "\n")
  }

  /** After a failed read the prompt loop says this before asking again. */
  const RETRY := "oops, try again"

  /**
   * The lines printed while reading: the prompt before each attempt and the
   * retry message after each failed one.
   */
  function Transcript(prompt: string, failures: nat): (lines: seq<string>)
    ensures |lines| == 2 * failures + 1
    ensures forall i | 0 <= i < |lines| :: lines[i] == if i % 2 == 0 then prompt else RETRY
  {
    if failures == 0 then [prompt]
    else [prompt, RETRY] + Transcript(prompt, failures - 1)
  }

  /** The index of the first successful attempt. */
  function FirstOk<T, E>(attempts: seq<Result<T, E>>): (k: nat)
    requires exists i | 0 <= i < |attempts| :: attempts[i].Ok?
    ensures k < |attempts| && attempts[k].Ok?
    ensures forall j | 0 <= j < k :: attempts[j].Err?
  {
    if attempts[0].Ok? then 0
    else
      assert exists i | 0 <= i < |attempts[1..]| :: attempts[1..][i].Ok? by {
        var i :| 0 <= i < |attempts| && attempts[i].Ok?;
        assert attempts[1..][i - 1] == attempts[i];
      }
      1 + FirstOk(attempts[1..])
  }

  /** A successful read: the value and the lines printed until it was obtained. */
  datatype Reading<T> = Reading(value: T, output: seq<string>)

  /**
   * `read_until_success`, run against the results its input function returns
   * on successive calls.  `read_until_success` recurses until an attempt succeeds; when
   * every given attempt fails the result is None.
   */
  function ReadUntilSuccess<T, E>(attempts: seq<Result<T, E>>, prompt: string): (r: Option<Reading<T>>)
    ensures r.None? <==> forall i | 0 <= i < |attempts| :: attempts[i].Err?
    ensures r.Some? ==>
              var k := FirstOk(attempts);
              r.value == Reading(attempts[k].value, Transcript(prompt, k))
  {
    if |attempts| == 0 then None
    else
      match attempts[0]
      case Ok(result) => Some(Reading(result, [prompt]))
      case Err(_) =>
        match ReadUntilSuccess(attempts[1..], prompt)
        case None => None
        case Some(rd) => Some(Reading(rd.value, [prompt, RETRY] + rd.output))
  }

  /** Once an attempt has succeeded, later ones are never consulted. */
  lemma {:induction false} ReadUntilSuccessStops<T, E>(attempts: seq<Result<T, E>>, more: seq<Result<T, E>>,
                                                       prompt: string)
    requires exists i | 0 <= i < |attempts| :: attempts[i].Ok?
    ensures ReadUntilSuccess(attempts + more, prompt) == ReadUntilSuccess(attempts, prompt)
  {
    if attempts[0].Err? {
      var i :| 0 <= i < |attempts| && attempts[i].Ok?;
      assert attempts[1..][i - 1] == attempts[i];
      ReadUntilSuccessStops(attempts[1..], more, prompt);
      assert (attempts + more)[1..] == attempts[1..] + more;
    }
  }

  /** Every command is decoded from its own number, and only from it. */
  lemma TryFromInverse(c: MenuCommand, value: u8)
    ensures TryFrom(Ordinal(c)) == Ok(c)
    ensures TryFrom(value) == Ok(c) <==> value == Ordinal(c)
  {
  }

  /** `try_from` accepts exactly 0, 1 and 2, and no two of them give the same command. */
  lemma TryFromInjective(v: u8, w: u8)
    requires TryFrom(v).Ok? && TryFrom(v) == TryFrom(w)
    ensures v == w && v < 3
  {
  }

  /** The exact texts of the three menu entries. */
  lemma DisplayTexts()
    ensures Display(Exit) == "0. Exit"
    ensures Display(Login) == "1. Login"
    ensures Display(New) == "2. New"
  {
  }

  /** Typing the digit a menu entry starts with selects that entry. */
  lemma DisplayRoundTrip(c: MenuCommand)
    ensures DigitValue(Display(c)[0]) == Some(Ordinal(c))
    ensures TryFrom(DigitValue(Display(c)[0]).value) == Ok(c)
  {
  }

  /** The menu text, written out. */
  lemma MenuOptionsText()
    ensures MenuOptions() == "0. Exit\n1. Login\n2. New"
  {
    var lines := Displays(AllCommands);
    assert lines == [Display(Exit), Display(Login), Display(New)];
    assert lines[1..][1..] == [Display(New)];
    assert Join(lines[1..], "\n") == "1. Login" + "\n" + "2. New";
  }

  /** A string without the separator is not cut. */
  lemma {:induction false} SplitNoSeparator(p: string, sep: char)
    requires sep !in p
    ensures Split(p, sep) == [p]
  {
    if |p| > 0 {
      SplitNoSeparator(p[1..], sep);
      assert [p[0]] + p[1..] == p;
    }
  }

  /** Splitting stops at the first separator. */
  lemma {:induction false} SplitAtSeparator(p: string, sep: char, rest: string)
    requires sep !in p
    ensures Split(p + [sep] + rest, sep) == [p] + Split(rest, sep)
  {
    var s := p + [sep] + rest;
    if |p| == 0 {
      assert s[1..] == rest;
    } else {
      SplitAtSeparator(p[1..], sep, rest);
      assert s[1..] == p[1..] + [sep] + rest;
      assert [p[0]] + p[1..] == p;
    }
  }

  /** Splitting a join undoes it, when the separator occurs in no part. */
  lemma {:induction false} SplitJoin(parts: seq<string>, sep: char)
    requires |parts| >= 1
    requires forall i | 0 <= i < |parts| :: sep !in parts[i]
    ensures Split(Join(parts, [sep]), sep) == parts
  {
    if |parts| == 1 {
      SplitNoSeparator(parts[0], sep);
    } else {
      SplitJoin(parts[1..], sep);
      SplitAtSeparator(parts[0], sep, Join(parts[1..], [sep]));
      assert [parts[0]] + parts[1..] == parts;
    }
  }

  /**
   * The menu has one line per command, in declaration order, and typing the
   * digit a line starts with selects that line's command.
   */
  lemma MenuOptionsLines()
    ensures Split(MenuOptions(), '\n') == Displays(AllCommands)
    ensures forall i | 0 <= i < |AllCommands| ::
              TryFrom(DigitValue(Displays(AllCommands)[i][0]).value) == Ok(AllCommands[i])
  {
    forall i | 0 <= i < |AllCommands|
      ensures TryFrom(DigitValue(Displays(AllCommands)[i][0]).value) == Ok(AllCommands[i])
    {
      DisplayRoundTrip(AllCommands[i]);
    }
  }
}
