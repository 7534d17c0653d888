/**
 * The opcode DSL (dsl/): a list of op descriptions from which `gen_vm`
 * writes the VM's `#define` header and `gen_compiler` writes the
 * compiler's `OpCode` enum and one serialisation class per op, through a
 * `SourceWriter` that prefixes each line with the current indentation.
 */
module Dsl {
  import opened Wrappers

  const INDENT_WIDTH: int := 4

  /** `GlacierVMArgType`. */
  datatype ArgType = CHAR | BIT_8 | BIT_16 | BIT_32 | BIT_64

  /** `GlacierVMArg` and `GlacierVMEnumeratedArg` (a length-prefixed list of values). */
  datatype VmArg = VmArg(name: string, size: ArgType) | EnumeratedArg(name: string, size: ArgType)

  /** `GlacierVMOp` and `GlacierVMHeaderOp`. */
  datatype VmOp = BodyOp(name: string, args: seq<VmArg>) | HeaderOp(name: string, args: seq<VmArg>)

  /** `" " * n`: no spaces for a count of zero or less. */
  function Spaces(n: int): (r: string)
    ensures |r| == (if n <= 0 then 0 else n)
    ensures forall i :: 0 <= i < |r| ==> r[i] == ' '
  {
    if n <= 0 then [] else Repeat(' ', n)
  }

  /** The text `write_line` adds for one line at an indentation. */
  function Line(indent: int, text: string): string
  {
    Spaces(indent) + text + "\n"
  }

  /** Lines written in order, each with its indentation. */
  function Render(ls: seq<(int, string)>): string
  {
    if ls == [] then "" else Render(ls[..|ls| - 1]) + Line(ls[|ls| - 1].0, ls[|ls| - 1].1)
  }

  /** Appending a line appends its indentation, its text and a newline to the rendered text. */
  lemma WriteAppendsText(ls: seq<(int, string)>, indent: int, text: string)
    ensures Render(ls + [(indent, text)]) == Render(ls) + Spaces(indent) + text + "\n"
  {
    assert (ls + [(indent, text)])[..|ls|] == ls;
  }

  /**
   * `SourceWriter`. The source binds the integer 0 to `self.indent` in
   * `__init__`, which hides the `indent` method on every instance:
   * `IndentAsWritten` is that call, `Indent` the evidently intended one.
   * The text written so far is held as its lines, each with the
   * indentation it was written at; `Render` gives the source string.
   */
  class SourceWriter {
    var indent: int
    var lines: seq<(int, string)>

    /** `__init__`: no indentation and no text. */
    constructor ()
      ensures indent == 0 && lines == [] && Render(lines) == ""
    {
      indent := 0;
      lines := [];
    }

    /** `writer.indent()` as written: the attribute is the integer, so the call raises TypeError and changes nothing. */
    method IndentAsWritten() returns (err: Option<PyError>)
      ensures err == Some(TypeError)
    {
      err := Some(TypeError);
    }

    /** `indent` as intended: four more spaces on later lines. */
    method Indent()
      modifies this
      ensures indent == old(indent) + INDENT_WIDTH && lines == old(lines)
    {
      indent := indent + INDENT_WIDTH;
    }

    /** `unindent`: four spaces fewer. */
    method Unindent()
      modifies this
      ensures indent == old(indent) - INDENT_WIDTH && lines == old(lines)
    {
      indent := indent - INDENT_WIDTH;
    }

    /** `reset_indent`. */
    method ResetIndent()
      modifies this
      ensures indent == 0 && lines == old(lines)
    {
      indent := 0;
    }

    /** `write_line`: one more line at the current indentation (see `WriteAppendsText` for the text). */
    method WriteLine(text: string)
      modifies this
      ensures indent == old(indent)
      ensures lines == old(lines) + [(indent, text)]
    {
      lines := lines + [(indent, text)];
    }

    /** `get_source`: everything written, in order. */
    method GetSource() returns (s: string)
      ensures s == Render(lines)
    {
      s := Render(lines);
    }
  }

  /** `c.upper()` on ASCII letters; other characters are left as they are. */
  function UpperChar(c: char): (r: char)
    ensures ('a' <= c <= 'z') ==> 'A' <= r <= 'Z'
    ensures !('a' <= c <= 'z') ==> r == c
  {
    if 'a' <= c <= 'z' then (c as int - 32) as char else c
  }

  function Upper(s: string): (r: string)
    ensures |r| == |s| && forall i :: 0 <= i < |s| ==> r[i] == UpperChar(s[i])
  {
    seq(|s|, i requires 0 <= i < |s| => UpperChar(s[i]))
  }

  /**
   * `_convert_snake_to_pascal` from a given state of the `to_upper` flag:
   * a character read with the flag set is upper-cased (even a `_`) and
   * clears it; otherwise a `_` sets the flag and is dropped.
   */
  function SnakeToPascal(s: string, toUpper: bool): string
  {
    if s == [] then ""
    else if toUpper then [UpperChar(s[0])] + SnakeToPascal(s[1..], false)
    else if s[0] == '_' then SnakeToPascal(s[1..], true)
    else [s[0]] + SnakeToPascal(s[1..], false)
  }

  function Count(s: string, c: char): nat
  {
    if s == [] then 0 else (if s[0] == c then 1 else 0) + Count(s[1..], c)
  }

  /** No character after a `_` (or first, when the flag is set) is itself a `_`. */
  predicate NoUnderscoreRuns(s: string, toUpper: bool)
  {
    (toUpper && s != [] ==> s[0] != '_') &&
    forall i :: 0 <= i < |s| - 1 && s[i] == '_' ==> s[i + 1] != '_'
  }

  /**
   * For a name with no leading `_` and no `__`, the result has no `_` and
   * one character fewer per `_`; the first character and each one after a
   * `_` are upper-cased.
   */
  lemma {:induction false} PascalDropsUnderscores(s: string, toUpper: bool)
    requires NoUnderscoreRuns(s, toUpper)
    ensures '_' !in SnakeToPascal(s, toUpper)
    ensures |SnakeToPascal(s, toUpper)| == |s| - Count(s, '_')
    decreases |s|
  {
    if s != [] {
      assert forall i :: 0 <= i < |s[1..]| - 1 && s[1..][i] == '_' ==> s[1..][i + 1] != '_' by {
        forall i | 0 <= i < |s[1..]| - 1 && s[1..][i] == '_'
          ensures s[1..][i + 1] != '_'
        {
          assert s[i + 1] == '_';
        }
      }
      if toUpper {
        PascalDropsUnderscores(s[1..], false);
      } else if s[0] == '_' {
        PascalDropsUnderscores(s[1..], true);
      } else {
        PascalDropsUnderscores(s[1..], false);
      }
    }
  }

  /** `_convert_snake_to_pascal`: one pass over the characters with the `to_upper` flag. */
  method ConvertSnakeToPascal(snake: string) returns (r: string)
    ensures r == SnakeToPascal(snake, true)
  {
    r := "";
    var toUpper := true;
    var i := 0;
    while i < |snake|
      invariant 0 <= i <= |snake|
      invariant r + SnakeToPascal(snake[i..], toUpper) == SnakeToPascal(snake, true)
    {
      assert snake[i..][1..] == snake[i + 1..];
      var c := snake[i];
      if toUpper {
        r := r + [UpperChar(c)];
        toUpper := false;
      } else if c == '_' {
        toUpper := true;
      } else {
        r := r + [c];
      }
      i := i + 1;
    }
  }

  /** A digit of Python's `hex`, lower case. */
  function HexDigit(d: nat): char
    requires d < 16
  {
    if d < 10 then ('0' as int + d) as char else ('a' as int + d - 10) as char
  }

  function HexDigits(n: nat): (r: string)
    ensures |r| >= 1
  {
    if n < 16 then [HexDigit(n)] else HexDigits(n / 16) + [HexDigit(n % 16)]
  }

  /** `hex(n)`: `0x` then the digits without leading zeros. */
  function Hex(n: nat): string
  {
    "0x" + HexDigits(n)
  }

  /** The value of a hexadecimal digit, or -1. */
  function DigitValue(c: char): int
  {
    if '0' <= c <= '9' then c as int - '0' as int
    else if 'a' <= c <= 'f' then c as int - 'a' as int + 10
    else -1
  }

  /** Reading the digits back, most significant first. */
  function ParseHexDigits(s: string): int
  {
    if s == [] then 0 else ParseHexDigits(s[..|s| - 1]) * 16 + DigitValue(s[|s| - 1])
  }

  /** `hex` loses nothing: the digits read back as the number. */
  lemma {:induction false} HexRoundTrip(n: nat)
    ensures ParseHexDigits(HexDigits(n)) == n
    ensures Hex(n)[..2] == "0x" && Hex(n)[2..] == HexDigits(n)
    decreases n
  {
    if n >= 16 {
      HexRoundTrip(n / 16);
      var s := HexDigits(n);
      assert s[..|s| - 1] == HexDigits(n / 16);
    }
  }

  /** Different numbers get different `hex` texts. */
  lemma HexInjective(i: nat, j: nat)
    requires Hex(i) == Hex(j)
    ensures i == j
  {
    HexRoundTrip(i);
    HexRoundTrip(j);
  }

  /** `_gen_op` of dsl/gen_vm.py: one `#define` line. */
  function VmDefine(name: string, value: nat): string
  {
    "#define GLC_BYTECODE_" + Upper(name) + " " + Hex(value) + "\n"
  }

  /** The header `gen_vm` returns for the ops, numbered from 0 in list order. */
  function VmSource(ops: seq<VmOp>): string
  {
    if ops == [] then "" else VmSource(ops[..|ops| - 1]) + VmDefine(ops[|ops| - 1].name, |ops| - 1)
  }

  /** The i-th `#define` line of the generated header. */
  function VmDefines(ops: seq<VmOp>): (r: seq<string>)
    ensures |r| == |ops| && forall i :: 0 <= i < |ops| ==> r[i] == VmDefine(ops[i].name, i)
  {
    seq(|ops|, i requires 0 <= i < |ops| => VmDefine(ops[i].name, i))
  }

  /** The header is exactly one `#define` per op, in list order, numbered 0, 1, 2, ... */
  lemma {:induction false} VmSourceIsDefines(ops: seq<VmOp>)
    ensures VmSource(ops) == Concat(VmDefines(ops))
    decreases |ops|
  {
    if ops != [] {
      var p := ops[..|ops| - 1];
      VmSourceIsDefines(p);
      assert VmDefines(ops) == VmDefines(p) + [VmDefine(ops[|ops| - 1].name, |ops| - 1)];
      ConcatAppend(VmDefines(p), VmDefine(ops[|ops| - 1].name, |ops| - 1));
    }
  }

  /** `gen_vm`: the loop with the counter `i`. */
  method GenVm(ops: seq<VmOp>) returns (source: string)
    ensures source == VmSource(ops)
  {
    source := "";
    var i := 0;
    while i < |ops|
      invariant 0 <= i <= |ops|
      invariant source == VmSource(ops[..i])
    {
      assert ops[..i + 1][..i] == ops[..i];
      source := source + VmDefine(ops[i].name, i);
      i := i + 1;
    }
    assert ops[..i] == ops;
  }

  /** `_gen_bc`: the enum member line of the compiler's `OpCode`. */
  function EnumMember(name: string, value: nat): string
  {
    Upper(name) + " = " + Hex(value)
  }

  /** The `OpCode` members `gen_compiler` writes, indented once. */
  function EnumLines(ops: seq<VmOp>): (r: seq<(int, string)>)
    ensures |r| == |ops| && forall i :: 0 <= i < |ops| ==> r[i] == (INDENT_WIDTH, EnumMember(ops[i].name, i))
  {
    seq(|ops|, i requires 0 <= i < |ops| => (INDENT_WIDTH, EnumMember(ops[i].name, i)))
  }

  /**
   * Both generators number op i as i: the VM's `#define` and the
   * compiler's enum member carry the same name and the same hex text,
   * which reads back as i.
   */
  lemma NumberingAgrees(ops: seq<VmOp>, i: nat)
    requires i < |ops|
    ensures var h := Hex(i);
      VmDefines(ops)[i] == "#define GLC_BYTECODE_" + Upper(ops[i].name) + " " + h + "\n" &&
      EnumLines(ops)[i].1 == Upper(ops[i].name) + " = " + h &&
      ParseHexDigits(h[2..]) == i
  {
    HexRoundTrip(i);
  }

  const HEADER: string := "# Generated by glacierdsl - DO NOT EDIT."
  const IMPORTS: string := "\nfrom enum import Enum\n"
  const ENUM_CLASS: string := "class OpCode(Enum):"
  const OFFSET_NONE: string := "self._offset = None"
  const PASS: string := "pass"
  const SERIALISE_DEF: string := "def serialise(self, bc):"
  const ARGS_LIST: string := "args = list()"
  const IF_RESERVED: string := "if self._offset is not None:"
  const ELSE: string := "else:"
  const RETURN_SELF: string := "return self"
  const RESERVE_DEF: string := "def reserve(self, bc):"
  const RECORD_OFFSET: string := "self._offset = bc.current_offset()"

  function ClassLine(pascal: string): string { "class " + pascal + ":" }
  function CtorLine(params: string): string { "def __init__(self" + params + "):" }
  function CtorParam(name: string): string { ", " + name + " = None" }
  function FieldLine(name: string): string { "self." + name + " = " + name }
  function AppendLine(name: string): string { "args.append(self." + name + ")" }
  function AppendLenLine(name: string): string { "args.append(len(self." + name + "))" }
  function ExtendBytesLine(name: string): string { "args.extend(bytes(self." + name + ", 'utf-8'))" }
  function ExtendLine(name: string): string { "args.extend(self." + name + ")" }
  function EditOpLine(u: string): string { "bc.edit_op(self._offset, OpCode." + u + ", args)" }
  function WriteOpLine(u: string): string { "bc.write_op(OpCode." + u + ", args)" }
  function WriteHeaderLine(u: string): string { "bc.write_header(OpCode." + u + ", args)" }
  function ArrayLine(placeholders: string): string { "args = [" + placeholders + "]" }
  function AssignLine(params: string): string { "def assign(self" + params + "):" }

  /** The ", x = None" parameters of the generated constructor. */
  function CtorParams(args: seq<VmArg>): string
  {
    if args == [] then "" else CtorParams(args[..|args| - 1]) + CtorParam(args[|args| - 1].name)
  }

  /** The ", x" parameters of the generated `assign`. */
  function AssignParams(args: seq<VmArg>): string
  {
    if args == [] then "" else AssignParams(args[..|args| - 1]) + ", " + args[|args| - 1].name
  }

  /**
   * One `0xFF` per argument, separated by ", ". The generator writes the
   * separator when `arg != op.args[0]`, which compares identity because
   * the argument class defines no `__eq__`; the model tests the position
   * instead. The two differ only for an op that lists the same argument
   * object twice: Python then leaves out the separator before the repeat.
   */
  function Placeholders(n: nat): string
  {
    if n == 0 then "" else Placeholders(n - 1) + (if n - 1 != 0 then ", " else "") + "0xFF"
  }

  /** `Placeholders` holds n copies of `0xFF`, as `0xFF, 0xFF, ...`. */
  lemma {:induction false} PlaceholdersShape(n: nat)
    ensures n == 0 ==> Placeholders(n) == ""
    ensures n > 0 ==> |Placeholders(n)| == 6 * n - 2 && Placeholders(n)[|Placeholders(n)| - 4..] == "0xFF"
    ensures forall k :: 0 <= k < n ==> Placeholders(n)[6 * k..6 * k + 4] == "0xFF"
    decreases n
  {
    if n > 0 {
      PlaceholdersShape(n - 1);
      var p := Placeholders(n - 1);
      var q := Placeholders(n);
      assert q == p + (if n - 1 != 0 then ", " else "") + "0xFF";
      forall k | 0 <= k < n
        ensures q[6 * k..6 * k + 4] == "0xFF"
      {
        if k < n - 1 {
          assert q[6 * k..6 * k + 4] == p[6 * k..6 * k + 4];
        }
      }
    }
  }

  /*
   * The generated text as lines (indentation, text). Each `...After`
   * function gives the lines after a piece of the generator has written
   * onto the lines p already there.
   */

  /** `self.x = x` for each argument. */
  function FieldsAfter(p: seq<(int, string)>, args: seq<VmArg>, indent: int): (r: seq<(int, string)>)
    ensures |r| == |p| + |args| && r[..|p|] == p
    ensures forall k :: 0 <= k < |args| ==> r[|p| + k] == (indent, FieldLine(args[k].name))
  {
    if args == [] then p
    else
      var r := FieldsAfter(p, args[..|args| - 1], indent) + [(indent, FieldLine(args[|args| - 1].name))];
      assert forall k :: 0 <= k < |args| - 1 ==> args[..|args| - 1][k] == args[k];
      r
  }

  /** What `serialise` does with one argument: append it, or append its length and then its elements or UTF-8 bytes. */
  function ArgAfter(p: seq<(int, string)>, a: VmArg, indent: int): seq<(int, string)>
  {
    match a
    case VmArg(n, _) => p + [(indent, AppendLine(n))]
    case EnumeratedArg(n, size) =>
      p + [(indent, AppendLenLine(n))] + [(indent, if size == CHAR then ExtendBytesLine(n) else ExtendLine(n))]
  }

  /** The number of lines `serialise` spends on the arguments. */
  function ArgLineCount(args: seq<VmArg>): nat
  {
    if args == [] then 0 else ArgLineCount(args[..|args| - 1]) + (if args[|args| - 1].VmArg? then 1 else 2)
  }

  function ArgsAfter(p: seq<(int, string)>, args: seq<VmArg>, indent: int): (r: seq<(int, string)>)
    ensures |r| == |p| + ArgLineCount(args) && r[..|p|] == p
  {
    if args == [] then p
    else
      var q := ArgsAfter(p, args[..|args| - 1], indent);
      var r := ArgAfter(q, args[|args| - 1], indent);
      assert r[..|q|] == q;
      r
  }

  /** The class line and the constructor. */
  function CtorAfter(p: seq<(int, string)>, op: VmOp, s: int): (r: seq<(int, string)>)
    ensures |r| == |p| + 3 + |op.args| && r[..|p|] == p
    ensures r[|p|] == (s, ClassLine(SnakeToPascal(op.name, true))) && r[|p| + 1] == (s + 4, CtorLine(CtorParams(op.args)))
    ensures r[|p| + 2] == (s + 8, if op.args != [] then OFFSET_NONE else PASS)
  {
    var p1 := p + [(s, ClassLine(SnakeToPascal(op.name, true)))] + [(s + 4, CtorLine(CtorParams(op.args)))];
    if op.args != [] then FieldsAfter(p1 + [(s + 8, OFFSET_NONE)], op.args, s + 8) else p1 + [(s + 8, PASS)]
  }

  /** Whether the op gets `reserve`/`assign` and a `serialise` that can patch: body ops with arguments. */
  predicate Reservable(op: VmOp)
  {
    op.BodyOp? && op.args != []
  }

  /** How the generated `serialise` hands the op to the byte code, after the arguments. */
  function CallAfter(p: seq<(int, string)>, op: VmOp, s: int): (r: seq<(int, string)>)
    ensures |r| >= |p| && r[..|p|] == p
  {
    var u := Upper(op.name);
    if Reservable(op) then p + [(s + 8, IF_RESERVED)] + [(s + 12, EditOpLine(u))] + [(s + 8, ELSE)] + [(s + 12, WriteOpLine(u))]
    else if op.BodyOp? then p + [(s + 8, WriteOpLine(u))]
    else p + [(s + 8, WriteHeaderLine(u))]
  }

  /** The `serialise` method of the generated class. */
  function SerialiseAfter(p: seq<(int, string)>, op: VmOp, s: int): (r: seq<(int, string)>)
    ensures |r| >= |p| && r[..|p|] == p
  {
    var p1 := p + [(s + 4, SERIALISE_DEF)] + [(s + 8, ARGS_LIST)];
    var p2 := ArgsAfter(p1, op.args, s + 8);
    var p3 := CallAfter(p2, op, s);
    var r := p3 + [(s + 8, RETURN_SELF)];
    assert r[..|p|] == r[..|p3|][..|p2|][..|p1|][..|p|];
    r
  }

  /**
   * The generated `serialise` patches with `edit_op` exactly for body ops
   * with arguments and otherwise writes with `write_op`, or with
   * `write_header` for header ops.
   */
  lemma CallShape(p: seq<(int, string)>, op: VmOp, s: int)
    ensures var ls := CallAfter(p, op, s);
      var u := Upper(op.name);
      var k := |p|;
      (Reservable(op) ==> |ls| == k + 4 && ls[k + 1] == (s + 12, EditOpLine(u)) && ls[k + 3] == (s + 12, WriteOpLine(u))) &&
      (!Reservable(op) ==> |ls| == k + 1) &&
      (!Reservable(op) && op.BodyOp? ==> ls[k] == (s + 8, WriteOpLine(u))) &&
      (op.HeaderOp? ==> ls[k] == (s + 8, WriteHeaderLine(u)))
  {
  }

  /** The generated `reserve`: record the offset and write the op with one 0xFF per argument. */
  function ReserveDefAfter(p: seq<(int, string)>, op: VmOp, s: int): (r: seq<(int, string)>)
    ensures |r| == |p| + 5 && r[..|p|] == p
    ensures r[|p| + 2] == (s + 8, ArrayLine(Placeholders(|op.args|)))
  {
    p + [(s + 4, RESERVE_DEF)] + [(s + 8, RECORD_OFFSET)] + [(s + 8, ArrayLine(Placeholders(|op.args|)))] +
      [(s + 8, WriteOpLine(Upper(op.name)))] + [(s + 8, RETURN_SELF)]
  }

  /** The generated `assign`: store each argument. */
  function AssignAfter(p: seq<(int, string)>, op: VmOp, s: int): (r: seq<(int, string)>)
    ensures |r| == |p| + 2 + |op.args| && r[..|p|] == p
  {
    var p1 := p + [(s + 4, AssignLine(AssignParams(op.args)))];
    var p2 := FieldsAfter(p1, op.args, s + 8);
    var r := p2 + [(s + 8, RETURN_SELF)];
    assert r[..|p|] == r[..|p2|][..|p1|][..|p|];
    r
  }

  /** The `reserve` and `assign` methods, for reservable ops only. */
  function ReserveAfter(p: seq<(int, string)>, op: VmOp, s: int): (r: seq<(int, string)>)
    ensures |r| >= |p| && r[..|p|] == p
    ensures Reservable(op) <==> r != p
  {
    if !Reservable(op) then p
    else
      var p1 := ReserveDefAfter(p, op, s);
      var r := AssignAfter(p1, op, s);
      assert r[..|p|] == r[..|p1|][..|p|];
      r
  }

  /** The class `_gen_op` writes for one op, starting at indentation s. */
  function OpAfter(p: seq<(int, string)>, op: VmOp, s: int): (r: seq<(int, string)>)
    ensures |r| >= |p| && r[..|p|] == p
  {
    var p1 := CtorAfter(p, op, s);
    var p2 := SerialiseAfter(p1, op, s);
    var r := ReserveAfter(p2, op, s);
    assert r[..|p|] == r[..|p2|][..|p1|][..|p|];
    r
  }

  /** The enum block: the file header, the imports, `class OpCode(Enum):` and the members. */
  function EnumAfter(ops: seq<VmOp>): (r: seq<(int, string)>)
    ensures |r| == 3 + |ops| && r[..3] == [(0, HEADER), (0, IMPORTS), (0, ENUM_CLASS)]
    ensures forall i :: 0 <= i < |ops| ==> r[3 + i] == (INDENT_WIDTH, EnumMember(ops[i].name, i))
  {
    if ops == [] then [] + [(0, HEADER)] + [(0, IMPORTS)] + [(0, ENUM_CLASS)]
    else
      var r := EnumAfter(ops[..|ops| - 1]) + [(INDENT_WIDTH, EnumMember(ops[|ops| - 1].name, |ops| - 1))];
      assert forall i :: 0 <= i < |ops| - 1 ==> ops[..|ops| - 1][i] == ops[i];
      r
  }

  /** One class per op, each from indentation 0; writing classes only appends. */
  function ClassesAfter(p: seq<(int, string)>, ops: seq<VmOp>): (r: seq<(int, string)>)
    ensures |r| >= |p| && r[..|p|] == p
  {
    if ops == [] then p
    else
      var q := ClassesAfter(p, ops[..|ops| - 1]);
      var r := OpAfter(q, ops[|ops| - 1], 0);
      assert r[..|p|] == r[..|q|][..|p|];
      r
  }

  /** What `gen_compiler` evidently means to produce: the enum, then one class per op. */
  function CompilerSource(ops: seq<VmOp>): string
  {
    Render(ClassesAfter(EnumAfter(ops), ops))
  }

  /**
   * In the generated compiler module, enum member i of `OpCode` carries the
   * number i (as the VM header does), after the three opening lines.
   */
  lemma CompilerEnumNumbering(ops: seq<VmOp>, i: nat)
    requires i < |ops|
    ensures 3 + i < |ClassesAfter(EnumAfter(ops), ops)|
    ensures ClassesAfter(EnumAfter(ops), ops)[3 + i] == (INDENT_WIDTH, Upper(ops[i].name) + " = " + Hex(i))
  {
    var e := EnumAfter(ops);
    assert ClassesAfter(e, ops)[3 + i] == ClassesAfter(e, ops)[..|e|][3 + i];
  }

  /** `gen_compiler` as written: the first `writer.indent()` raises, whatever the op list. */
  method GenCompilerAsWritten(opList: seq<VmOp>) returns (r: Result<string, PyError>)
    ensures r == Err(TypeError)
  {
    var writer := new SourceWriter();
    writer.WriteLine(HEADER);
    writer.WriteLine(IMPORTS);
    writer.WriteLine(ENUM_CLASS);
    var err := writer.IndentAsWritten();
    r := Err(err.value);
  }

  /** `gen_compiler` with a working `indent`. */
  method GenCompiler(opList: seq<VmOp>) returns (source: string)
    ensures source == CompilerSource(opList)
  {
    var writer := new SourceWriter();
    writer.WriteLine(HEADER);
    writer.WriteLine(IMPORTS);
    writer.WriteLine(ENUM_CLASS);
    writer.Indent();
    WriteEnum(writer, opList);
    writer.Unindent();
    WriteClasses(writer, opList);
    source := writer.GetSource();
  }

  /** The operation classes: one `_gen_op` per op, each followed by `reset_indent`. */
  method WriteClasses(writer: SourceWriter, opList: seq<VmOp>)
    requires writer.indent == 0
    modifies writer
    ensures writer.indent == 0 && writer.lines == ClassesAfter(old(writer.lines), opList)
  {
    var i := 0;
    while i < |opList|
      invariant 0 <= i <= |opList| && writer.indent == 0
      invariant writer.lines == ClassesAfter(old(writer.lines), opList[..i])
    {
      assert opList[..i + 1][..i] == opList[..i];
      GenOp(writer, opList[i]);
      writer.ResetIndent();
      i := i + 1;
    }
    assert opList[..i] == opList;
  }

  /** The `OpCode` members, numbered from 0 (the `_gen_bc` loop). */
  method WriteEnum(writer: SourceWriter, opList: seq<VmOp>)
    requires writer.lines == EnumAfter([]) && writer.indent == INDENT_WIDTH
    modifies writer
    ensures writer.indent == INDENT_WIDTH && writer.lines == EnumAfter(opList)
  {
    var i := 0;
    while i < |opList|
      invariant 0 <= i <= |opList| && writer.indent == INDENT_WIDTH
      invariant writer.lines == EnumAfter(opList[..i])
    {
      assert opList[..i + 1][..i] == opList[..i];
      writer.WriteLine(EnumMember(opList[i].name, i));
      i := i + 1;
    }
    assert opList[..i] == opList;
  }

  /** `_gen_op` (with a working `indent`): the class for one op. */
  method GenOp(writer: SourceWriter, op: VmOp)
    modifies writer
    ensures writer.indent == old(writer.indent) + 4
    ensures writer.lines == OpAfter(old(writer.lines), op, old(writer.indent))
  {
    GenCtor(writer, op);
    GenSerialise(writer, op);
    GenReserve(writer, op);
  }

  /** The class line and the constructor. */
  method GenCtor(writer: SourceWriter, op: VmOp)
    modifies writer
    ensures writer.indent == old(writer.indent) + 4
    ensures writer.lines == CtorAfter(old(writer.lines), op, old(writer.indent))
  {
    var pascal := ConvertSnakeToPascal(op.name);
    writer.WriteLine(ClassLine(pascal));
    writer.Indent();
    var params := "";
    var i := 0;
    while i < |op.args|
      invariant 0 <= i <= |op.args|
      invariant params == CtorParams(op.args[..i])
    {
      assert op.args[..i + 1][..i] == op.args[..i];
      params := params + CtorParam(op.args[i].name);
      i := i + 1;
    }
    assert op.args[..i] == op.args;
    writer.WriteLine(CtorLine(params));
    writer.Indent();
    if op.args != [] {
      writer.WriteLine(OFFSET_NONE);
      WriteFields(writer, op.args);
    } else {
      writer.WriteLine(PASS);
    }
    writer.Unindent();
  }

  /** `self.x = x` for each argument, at the current indentation. */
  method WriteFields(writer: SourceWriter, args: seq<VmArg>)
    modifies writer
    ensures writer.indent == old(writer.indent)
    ensures writer.lines == FieldsAfter(old(writer.lines), args, old(writer.indent))
  {
    var i := 0;
    while i < |args|
      invariant 0 <= i <= |args| && writer.indent == old(writer.indent)
      invariant writer.lines == FieldsAfter(old(writer.lines), args[..i], writer.indent)
    {
      assert args[..i + 1][..i] == args[..i];
      writer.WriteLine(FieldLine(args[i].name));
      i := i + 1;
    }
    assert args[..i] == args;
  }

  /** The generated `serialise`. */
  method GenSerialise(writer: SourceWriter, op: VmOp)
    modifies writer
    ensures writer.indent == old(writer.indent)
    ensures writer.lines == SerialiseAfter(old(writer.lines), op, old(writer.indent) - 4)
  {
    writer.WriteLine(SERIALISE_DEF);
    writer.Indent();
    writer.WriteLine(ARGS_LIST);
    WriteArgs(writer, op.args);
    WriteCall(writer, op);
    writer.WriteLine(RETURN_SELF);
    writer.Unindent();
  }

  /** The argument lines of the generated `serialise`, at the current indentation. */
  method WriteArgs(writer: SourceWriter, args: seq<VmArg>)
    modifies writer
    ensures writer.indent == old(writer.indent)
    ensures writer.lines == ArgsAfter(old(writer.lines), args, old(writer.indent))
  {
    ghost var p := writer.lines;
    var i := 0;
    while i < |args|
      invariant 0 <= i <= |args| && writer.indent == old(writer.indent)
      invariant writer.lines == ArgsAfter(p, args[..i], writer.indent)
    {
      ArgsAfterSnoc(p, args, i, writer.indent);
      WriteArg(writer, args[i]);
      i := i + 1;
    }
    assert args[..i] == args;
  }

  /** The lines for one argument: its length or value, then for an enumerated one its items. */
  method WriteArg(writer: SourceWriter, arg: VmArg)
    modifies writer
    ensures writer.indent == old(writer.indent)
    ensures writer.lines == ArgAfter(old(writer.lines), arg, writer.indent)
  {
    match arg {
      case VmArg(n, _) =>
        writer.WriteLine(AppendLine(n));
      case EnumeratedArg(n, size) =>
        writer.WriteLine(AppendLenLine(n));
        if size == CHAR {
          writer.WriteLine(ExtendBytesLine(n));
        } else {
          writer.WriteLine(ExtendLine(n));
        }
    }
  }

  /** One more argument: its lines follow those of the ones before it. */
  lemma ArgsAfterSnoc(p: seq<(int, string)>, args: seq<VmArg>, i: nat, indent: int)
    requires i < |args|
    ensures ArgsAfter(p, args[..i + 1], indent) == ArgAfter(ArgsAfter(p, args[..i], indent), args[i], indent)
  {
    assert args[..i + 1][..i] == args[..i];
  }

  /** Writing the actual opcode: patch or write for body ops with arguments, else write or write the header. */
  method WriteCall(writer: SourceWriter, op: VmOp)
    modifies writer
    ensures writer.indent == old(writer.indent)
    ensures writer.lines == CallAfter(old(writer.lines), op, old(writer.indent) - 8)
  {
    var headerOp := op.HeaderOp?;
    var u := Upper(op.name);
    if op.args != [] && !headerOp {
      writer.WriteLine(IF_RESERVED);
      writer.Indent();
      writer.WriteLine(EditOpLine(u));
      writer.Unindent();
      writer.WriteLine(ELSE);
      writer.Indent();
      writer.WriteLine(WriteOpLine(u));
      writer.Unindent();
    } else if !headerOp {
      writer.WriteLine(WriteOpLine(u));
    } else {
      writer.WriteLine(WriteHeaderLine(u));
    }
  }

  /** The generated `reserve` and `assign`, for body ops with arguments. */
  method GenReserve(writer: SourceWriter, op: VmOp)
    modifies writer
    ensures writer.indent == old(writer.indent)
    ensures writer.lines == ReserveAfter(old(writer.lines), op, old(writer.indent) - 4)
  {
    if !(op.args != [] && !op.HeaderOp?) {
      return;
    }
    WriteReserveDef(writer, op);
    WriteAssign(writer, op);
  }

  /** The generated `reserve`; its separators are chosen as in Placeholders. */
  method WriteReserveDef(writer: SourceWriter, op: VmOp)
    modifies writer
    ensures writer.indent == old(writer.indent)
    ensures writer.lines == ReserveDefAfter(old(writer.lines), op, old(writer.indent) - 4)
  {
    writer.WriteLine(RESERVE_DEF);
    writer.Indent();
    writer.WriteLine(RECORD_OFFSET);
    var placeholders := "";
    var i := 0;
    while i < |op.args|
      invariant 0 <= i <= |op.args|
      invariant placeholders == Placeholders(i)
    {
      if i != 0 {
        placeholders := placeholders + ", ";
      }
      placeholders := placeholders + "0xFF";
      i := i + 1;
    }
    writer.WriteLine(ArrayLine(placeholders));
    writer.WriteLine(WriteOpLine(Upper(op.name)));
    writer.WriteLine(RETURN_SELF);
    writer.Unindent();
  }

  /** The generated `assign`. */
  method WriteAssign(writer: SourceWriter, op: VmOp)
    modifies writer
    ensures writer.indent == old(writer.indent)
    ensures writer.lines == AssignAfter(old(writer.lines), op, old(writer.indent) - 4)
  {
    var assignParams := "";
    var i := 0;
    while i < |op.args|
      invariant 0 <= i <= |op.args|
      invariant assignParams == AssignParams(op.args[..i])
    {
      assert op.args[..i + 1][..i] == op.args[..i];
      assignParams := assignParams + ", " + op.args[i].name;
      i := i + 1;
    }
    assert op.args[..i] == op.args;
    writer.WriteLine(AssignLine(assignParams));
    writer.Indent();
    WriteFields(writer, op.args);
    writer.WriteLine(RETURN_SELF);
    writer.Unindent();
  }
}
