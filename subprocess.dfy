/**
 * The value-level parts of `coveo_systools.subprocess`: converting command
 * line arguments to strings, building the argument list handed to `Popen`
 * (the unquoted path), and the text helpers of `DetailedCalledProcessError`.
 *
 * Arguments are tagged by their Python type. `str(value)` of a float and of
 * a path is their text, taken as given. Decoding bytes as UTF-8 (with
 * `errors="ignore"`) is a parameter of `Decode`.
 */
module Subprocess {
  import opened Wrappers
  import opened Text
  import opened PyValues

  /** A command line argument as `cast_command_line_argument_to_string` dispatches on it. */
  datatype Argument =
    | BoolArg(b: bool)
    | StrArg(s: string)
    | IntArg(i: int)
    | FloatArg(text: string)
    | PathArg(path: string)
    | OtherArg(typeName: string)

  datatype CastError = ValueError(message: string)

  /** The message raised for an argument whose type is not supported. */
  function Unsupported(typeName: string): CastError
  {
    ValueError("Unsupported type for command line argument: <class '" + typeName + "'>")
  }

  /**
   * `cast_command_line_argument_to_string`: `bool` is refused even though it
   * is an `int`, a `str` loses its leading whitespace, numbers and paths
   * become `str(value)`, and every other type is refused.
   */
  function CastArgument(a: Argument): (r: Result<string, CastError>)
    ensures r.Err? <==> a.BoolArg? || a.OtherArg?
  {
    match a
    case BoolArg(_) => Err(Unsupported("bool"))
    case StrArg(s) => Ok(LStrip(s))
    case IntArg(i) => Ok(IntToString(i))
    case FloatArg(text) => Ok(text)
    case PathArg(path) => Ok(path)
    case OtherArg(typeName) => Err(Unsupported(typeName))
  }

  /** A string argument loses exactly its leading whitespace; an int argument prints as a decimal that parses back to it. */
  lemma CastValues(a: Argument)
    ensures a.StrArg? ==> var r := CastArgument(a).value;
              r == a.s[|a.s| - |r|..] && IsBlank(a.s[..|a.s| - |r|]) && (|r| > 0 ==> !IsSpace(r[0]))
    ensures a.IntArg? ==> ParseInt(CastArgument(a).value) == Some(a.i)
  {
    if a.IntArg? {
      ParsePrintedInt(a.i);
    }
  }

  /** The arguments converted one by one, as `map(cast_command_line_argument_to_string, command)` yields them. */
  function Casts(args: seq<Argument>): (casts: seq<Result<string, CastError>>)
    ensures |casts| == |args|
    ensures forall k :: 0 <= k < |args| ==> casts[k] == CastArgument(args[k])
  {
    seq(|args|, k requires 0 <= k < |args| => CastArgument(args[k]))
  }

  /** What a converted argument adds to the command: nothing when it is `blank`. */
  function Contribution(c: string, blank: string -> bool): seq<string>
  {
    if blank(c) then [] else [c]
  }

  /**
   * Consuming the conversions in order: the first failure raises, the
   * conversions that are `blank` are dropped.
   */
  function Collect(casts: seq<Result<string, CastError>>, blank: string -> bool): Result<seq<string>, CastError>
    decreases |casts|
  {
    if |casts| == 0 then Ok([])
    else
      match casts[0]
      case Err(e) => Err(e)
      case Ok(c) =>
        match Collect(casts[1..], blank)
        case Err(e) => Err(e)
        case Ok(rest) => Ok(Contribution(c, blank) + rest)
  }

  /**
   * `_build_command(*command, quoted=False)`: every argument converted, the
   * conversions that are empty or only whitespace dropped. The first
   * argument that cannot be converted raises.
   */
  function BuildCommand(args: seq<Argument>): (r: Result<seq<string>, CastError>)
    ensures |args| > 0 && CastArgument(args[0]).Err? ==> r == Err(CastArgument(args[0]).error)
  {
    Collect(Casts(args), IsBlank)
  }

  lemma CollectOkParts(casts: seq<Result<string, CastError>>, blank: string -> bool)
    requires |casts| > 0 && Collect(casts, blank).Ok?
    ensures casts[0].Ok? && Collect(casts[1..], blank).Ok?
    ensures Collect(casts, blank).value == Contribution(casts[0].value, blank) + Collect(casts[1..], blank).value
  {
  }

  lemma CollectCons(casts: seq<Result<string, CastError>>, blank: string -> bool)
    requires |casts| > 0 && casts[0].Ok? && Collect(casts[1..], blank).Ok?
    ensures Collect(casts, blank) == Ok(Contribution(casts[0].value, blank) + Collect(casts[1..], blank).value)
  {
  }

  lemma CollectConsOk(casts: seq<Result<string, CastError>>, blank: string -> bool, rest: seq<string>)
    requires |casts| > 0 && casts[0].Ok? && Collect(casts[1..], blank) == Ok(rest)
    ensures Collect(casts, blank) == Ok(Contribution(casts[0].value, blank) + rest)
  {
  }

  lemma CollectTail(casts: seq<Result<string, CastError>>, blank: string -> bool)
    requires |casts| > 0 && casts[0].Ok?
    ensures Collect(casts, blank).Err? <==> Collect(casts[1..], blank).Err?
    ensures Collect(casts, blank).Err? ==> Collect(casts, blank).error == Collect(casts[1..], blank).error
  {
  }

  lemma {:induction false} CollectNoBlank(casts: seq<Result<string, CastError>>, blank: string -> bool)
    requires Collect(casts, blank).Ok?
    ensures |Collect(casts, blank).value| <= |casts|
    ensures forall k :: 0 <= k < |Collect(casts, blank).value| ==> !blank(Collect(casts, blank).value[k])
    decreases |casts|
  {
    if |casts| > 0 {
      CollectOkParts(casts, blank);
      CollectNoBlank(casts[1..], blank);
    }
  }

  lemma {:induction false} CollectErrors(casts: seq<Result<string, CastError>>, blank: string -> bool)
    ensures Collect(casts, blank).Err? <==> exists k :: 0 <= k < |casts| && casts[k].Err?
    decreases |casts|
  {
    if |casts| > 0 {
      if casts[0].Ok? {
        CollectErrors(casts[1..], blank);
        CollectTail(casts, blank);
        if exists k :: 0 <= k < |casts| && casts[k].Err? {
          var k :| 0 <= k < |casts| && casts[k].Err?;
          assert casts[1..][k - 1] == casts[k];
        }
        if exists k :: 0 <= k < |casts[1..]| && casts[1..][k].Err? {
          var k :| 0 <= k < |casts[1..]| && casts[1..][k].Err?;
          assert casts[k + 1] == casts[1..][k];
        }
      }
    }
  }

  lemma {:induction false} CollectFirstError(casts: seq<Result<string, CastError>>, blank: string -> bool)
    requires Collect(casts, blank).Err?
    ensures exists k :: 0 <= k < |casts| && casts[k] == Err(Collect(casts, blank).error)
                        && forall j :: 0 <= j < k ==> casts[j].Ok?
    decreases |casts|
  {
    if casts[0].Err? {
      assert casts[0] == Err(Collect(casts, blank).error);
    } else {
      CollectTail(casts, blank);
      CollectFirstError(casts[1..], blank);
      var k :| 0 <= k < |casts[1..]| && casts[1..][k] == Err(Collect(casts[1..], blank).error)
               && forall j :: 0 <= j < k ==> casts[1..][j].Ok?;
      assert casts[k + 1] == casts[1..][k];
      assert forall j :: 1 <= j < k + 1 ==> casts[j] == casts[1..][j - 1];
    }
  }

  lemma {:induction false} CollectAppend(a: seq<Result<string, CastError>>, b: seq<Result<string, CastError>>, blank: string -> bool,
                                         ra: seq<string>, rb: seq<string>)
    requires Collect(a, blank) == Ok(ra) && Collect(b, blank) == Ok(rb)
    ensures Collect(a + b, blank) == Ok(ra + rb)
    decreases |a|
  {
    if |a| > 0 {
      CollectOkParts(a, blank);
      var head := Contribution(a[0].value, blank);
      var tail := Collect(a[1..], blank).value;
      CollectAppend(a[1..], b, blank, tail, rb);
      CollectAppendStep(a, b, blank, tail + rb);
      assert head + (tail + rb) == ra + rb;
    } else {
      assert a + b == b;
      assert ra + rb == rb;
    }
  }

  lemma CollectAppendStep(a: seq<Result<string, CastError>>, b: seq<Result<string, CastError>>, blank: string -> bool, rest: seq<string>)
    requires |a| > 0 && a[0].Ok? && Collect(a[1..] + b, blank) == Ok(rest)
    ensures Collect(a + b, blank) == Ok(Contribution(a[0].value, blank) + rest)
  {
    var ab := a + b;
    assert ab[0] == a[0];
    assert ab[1..] == a[1..] + b;
    CollectConsOk(ab, blank, rest);
  }

  lemma {:induction false} CollectPlain(casts: seq<Result<string, CastError>>, words: seq<string>, blank: string -> bool)
    requires |casts| == |words|
    requires forall k :: 0 <= k < |words| ==> casts[k] == Ok(words[k]) && !blank(words[k])
    ensures Collect(casts, blank) == Ok(words)
    decreases |words|
  {
    if |words| > 0 {
      CollectPlain(casts[1..], words[1..], blank);
      assert Contribution(words[0], blank) == [words[0]];
      assert [words[0]] + words[1..] == words;
    }
  }

  /** No argument of the command is blank, and there are at most as many as were given. */
  lemma BuildCommandNoBlank(args: seq<Argument>)
    requires BuildCommand(args).Ok?
    ensures |BuildCommand(args).value| <= |args|
    ensures forall k :: 0 <= k < |BuildCommand(args).value| ==> !IsBlank(BuildCommand(args).value[k])
  {
    CollectNoBlank(Casts(args), IsBlank);
  }

  /** Some argument cannot be converted. */
  predicate AnyFailure(args: seq<Argument>)
  {
    exists k :: 0 <= k < |args| && CastArgument(args[k]).Err?
  }

  /** `k` is the first argument that cannot be converted. */
  predicate FirstFailure(args: seq<Argument>, k: int)
  {
    0 <= k < |args| && CastArgument(args[k]).Err? && forall j :: 0 <= j < k ==> CastArgument(args[j]).Ok?
  }

  /** The command fails exactly when some argument cannot be converted, with the error of the first one. */
  lemma BuildCommandErrors(args: seq<Argument>)
    ensures BuildCommand(args).Err? <==> AnyFailure(args)
    ensures BuildCommand(args).Err? ==>
              exists k :: FirstFailure(args, k) && BuildCommand(args).error == CastArgument(args[k]).error
  {
    var casts := Casts(args);
    CollectErrors(casts, IsBlank);
    if BuildCommand(args).Err? {
      CollectFirstError(casts, IsBlank);
      var k :| 0 <= k < |casts| && casts[k] == Err(Collect(casts, IsBlank).error) && forall j :: 0 <= j < k ==> casts[j].Ok?;
      assert FirstFailure(args, k);
    }
    if AnyFailure(args) {
      var k :| 0 <= k < |args| && CastArgument(args[k]).Err?;
      assert casts[k].Err?;
    }
  }

  /** One argument gives nothing when its conversion is blank, and its conversion otherwise. */
  lemma BuildCommandSingle(a: Argument, c: string)
    requires CastArgument(a) == Ok(c)
    ensures BuildCommand([a]) == Ok(if IsBlank(c) then [] else [c])
  {
    var casts := Casts([a]);
    assert casts[0] == Ok(c);
    assert casts[1..] == [];
    var none: seq<string> := [];
    assert Collect(casts[1..], IsBlank) == Ok(none);
    CollectCons(casts, IsBlank);
    assert Contribution(c, IsBlank) + none == Contribution(c, IsBlank);
  }

  /** The arguments are processed in order: the command of a concatenation is the concatenation of the commands. */
  lemma BuildCommandAppend(a: seq<Argument>, b: seq<Argument>)
    requires BuildCommand(a).Ok? && BuildCommand(b).Ok?
    ensures BuildCommand(a + b) == Ok(BuildCommand(a).value + BuildCommand(b).value)
  {
    assert Casts(a + b) == Casts(a) + Casts(b);
    CollectAppend(Casts(a), Casts(b), IsBlank, BuildCommand(a).value, BuildCommand(b).value);
  }

  /** String arguments. */
  function StrArgs(words: seq<string>): (args: seq<Argument>)
    ensures |args| == |words|
    ensures forall k :: 0 <= k < |words| ==> args[k] == StrArg(words[k])
  {
    seq(|words|, k requires 0 <= k < |words| => StrArg(words[k]))
  }

  /** A string that does not start with whitespace has nothing to strip on the left. */
  lemma LStripPlain(w: string)
    requires |w| > 0 && !IsSpace(w[0])
    ensures LStrip(w) == w && !IsBlank(w)
  {
  }

  /** Strings that are neither blank nor start with whitespace come out unchanged and in order. */
  lemma BuildCommandPlainStrings(words: seq<string>)
    requires forall k :: 0 <= k < |words| ==> |words[k]| > 0 && !IsSpace(words[k][0])
    ensures BuildCommand(StrArgs(words)) == Ok(words)
  {
    var casts := Casts(StrArgs(words));
    forall k | 0 <= k < |words|
      ensures casts[k] == Ok(words[k]) && !IsBlank(words[k])
    {
      LStripPlain(words[k]);
    }
    CollectPlain(casts, words, IsBlank);
  }

  /** The `cmd` of a called process: a single string, or a sequence of arguments. */
  datatype Command = CommandText(text: string) | CommandParts(parts: seq<string>)

  /** `command_str`: a string as it is, a sequence joined with single spaces. */
  function CommandStr(cmd: Command): (r: string)
    ensures cmd.CommandText? ==> r == cmd.text
  {
    match cmd
    case CommandText(text) => text
    case CommandParts(parts) => Join(" ", parts)
  }

  /** Arguments without spaces can be read back from the joined command, which holds one space fewer than there are arguments. */
  lemma CommandStrParts(parts: seq<string>)
    requires |parts| > 0
    requires forall k :: 0 <= k < |parts| ==> ' ' !in parts[k]
    ensures Count(CommandStr(CommandParts(parts)), ' ') == |parts| - 1
    ensures Split(CommandStr(CommandParts(parts)), ' ') == parts
  {
    JoinCount(' ', parts);
    SplitJoin(' ', parts);
  }

  /** The captured output or error stream of a process. */
  datatype Output = TextOutput(text: string) | BytesOutput(data: seq<byte>)

  /** `_decode`: `None` stays `None`; bytes are decoded by `utf8`, then the text is stripped. */
  function Decode(value: Option<Output>, utf8: seq<byte> -> string): (r: Option<string>)
    ensures r.None? <==> value.None?
    ensures r.Some? && |r.value| > 0 ==> !IsSpace(r.value[0]) && !IsSpace(r.value[|r.value| - 1])
    ensures r.Some? && value.value.TextOutput? ==> (r.value == "" <==> IsBlank(value.value.text))
  {
    match value
    case None => None
    case Some(TextOutput(text)) => Some(Strip(text))
    case Some(BytesOutput(data)) => Some(Strip(utf8(data)))
  }

  /** Decoding text that is already stripped gives it back; so decoding a decoded text changes nothing. */
  lemma DecodeStripped(s: string, utf8: seq<byte> -> string)
    requires |s| > 0 ==> !IsSpace(s[0]) && !IsSpace(s[|s| - 1])
    ensures Decode(Some(TextOutput(s)), utf8) == Some(s)
  {
    if |s| > 0 {
      assert LStrip(s) == s;
      assert RStrip(s) == s;
    }
  }

  /** A text with whitespace around a stripped middle decodes to the middle. */
  lemma DecodeDropsSurroundingSpace(l: string, m: string, r: string, utf8: seq<byte> -> string)
    requires IsBlank(l) && IsBlank(r)
    requires |m| > 0 && !IsSpace(m[0]) && !IsSpace(m[|m| - 1])
    ensures Decode(Some(TextOutput(l + m + r)), utf8) == Some(m)
  {
    var s := l + m + r;
    LStripBlankPrefix(l, m + r);
    assert s == l + (m + r);
    RStripBlankSuffix(m, r);
    assert Strip(s) == RStrip(m + r);
  }

  lemma {:induction false} LStripBlankPrefix(l: string, t: string)
    requires IsBlank(l) && |t| > 0 && !IsSpace(t[0])
    ensures LStrip(l + t) == t
    decreases |l|
  {
    if |l| > 0 {
      assert (l + t)[1..] == l[1..] + t;
      LStripBlankPrefix(l[1..], t);
    }
  }

  lemma {:induction false} RStripBlankSuffix(t: string, r: string)
    requires IsBlank(r) && |t| > 0 && !IsSpace(t[|t| - 1])
    ensures RStrip(t + r) == t
    decreases |r|
  {
    if |r| > 0 {
      assert (t + r)[..|t + r| - 1] == t + r[..|r| - 1];
      RStripBlankSuffix(t, r[..|r| - 1]);
    } else {
      assert t + r == t;
    }
  }
}
