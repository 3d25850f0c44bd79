/**
  The decoder of KLEE `.ktest` files and the reader of KLEE `.err` reports
  (backend/src/executor/ktest_parser.py).

  A `.ktest` buffer is: the 5-byte magic `KTEST`; a big-endian 32-bit version; a
  big-endian 32-bit argument count and that many length-prefixed arguments; when the
  version is 2 or more, a 32-bit symbolic-argument count, a 32-bit byte length and that
  many bytes, all skipped; a 32-bit object count and that many objects, each a
  length-prefixed name followed by length-prefixed data.
*/
module KTestParser {
  import opened Wrappers
  import opened Strings
  import opened Numbers
  import opened Records

  type Byte = b: int | 0 <= b < 256

  const Magic: seq<Byte> := [75, 84, 69, 83, 84]  // "KTEST"
  const InvalidFormat := "Invalid file format"
  const ErrorFileNotFound := "Error file not found"
  const NonStandardSize := "Non-standard size: "

  /** Value of an object: an integer for the standard widths; otherwise the string
      "Non-standard size: <n>", held here as the size it names (see `Text`). */
  datatype IntValue = Int(value: int) | NonStandard(size: nat)
  {
    /** The string that `parse_ktest` stores for a non-standard size. */
    function Text(): (t: string)
      requires NonStandard?
      ensures StartsWith(t, NonStandardSize)
      ensures ParseInt(t[|NonStandardSize|..]) == Some(size)
    {
      ParseIntToString(size);
      NonStandardSize + NatToString(size)
    }
  }

  /** One symbolic object; `name` is kept as the bytes read from the file, `size` is the
      declared data length and `rawBytes` the data actually present. */
  datatype KObject = KObject(name: seq<Byte>, size: nat, rawBytes: seq<Byte>)
  {
    /** The object's `int_value`, which depends only on the size and the bytes. */
    function IntValue(): IntValue
    {
      ObjectValue(size, rawBytes)
    }
  }

  datatype KTest = KTest(version: nat, args: seq<seq<Byte>>, objects: seq<KObject>)

  /** What `parse_ktest` produces: the invalid-format dictionary, the decoded test,
      or one of the two exceptions it lets escape. */
  datatype Outcome =
    | Invalid(error: string)   // {"valid": False, "error": ...}
    | Valid(test: KTest)       // {"valid": True, ...}
    | StructError              // struct.unpack on fewer than 4 bytes
    | FileNotFound             // the path does not exist

  /** `data[lo:lo+n]`: a slice that is silently shortened at the end of the buffer. */
  function Slice(data: seq<Byte>, lo: nat, n: nat): (r: seq<Byte>)
    ensures |r| <= n
    ensures lo + n <= |data| ==> |r| == n
    decreases n
  {
    if n == 0 || lo >= |data| then [] else [data[lo]] + Slice(data, lo + 1, n - 1)
  }

  /** The slice is the window of the buffer between the two clipped bounds. */
  lemma {:induction false} SliceWindow(data: seq<Byte>, lo: nat, n: nat)
    ensures var a := if lo < |data| then lo else |data|;
            var b := if lo + n < |data| then lo + n else |data|;
            Slice(data, lo, n) == data[a..b]
    decreases n
  {
    if n != 0 && lo < |data| {
      SliceWindow(data, lo + 1, n - 1);
    }
  }

  /** `struct.unpack(">I", data[p:p+4])[0]`: the big-endian unsigned value of four bytes,
      or None where it raises because fewer than four bytes are left. */
  function ReadU32(data: seq<Byte>, p: nat): (r: Option<nat>)
    ensures r.Some? <==> p + 4 <= |data|
    ensures r.Some? ==> r.value < 0x1_0000_0000
  {
    if p + 4 <= |data| then
      var b0: int, b1: int, b2: int, b3: int := data[p], data[p + 1], data[p + 2], data[p + 3];
      Some(((b0 * 256 + b1) * 256 + b2) * 256 + b3)
    else None
  }

  function Pow256(n: nat): (r: nat)
    ensures r >= 1
  {
    if n == 0 then 1 else 256 * Pow256(n - 1)
  }

  /** `int.from_bytes(bs, byteorder='little', signed=False)` */
  function LittleEndian(bs: seq<Byte>): nat
    decreases |bs|
  {
    if bs == [] then 0 else bs[0] + 256 * LittleEndian(bs[1..])
  }

  lemma {:induction false} LittleEndianBound(bs: seq<Byte>)
    ensures LittleEndian(bs) < Pow256(|bs|)
    decreases |bs|
  {
    if bs != [] {
      LittleEndianBound(bs[1..]);
    }
  }

  /** `int.from_bytes(bs, byteorder='little', signed=True)`: two's complement over 8*|bs| bits. */
  function SignedLittleEndian(bs: seq<Byte>): int
  {
    var u := LittleEndian(bs);
    if bs != [] && u >= Pow256(|bs|) / 2 then u - Pow256(|bs|) else u
  }

  /** A signed reading of `n` bytes lies in the two's-complement range of 8n bits. */
  lemma SignedRange(bs: seq<Byte>)
    requires bs != []
    ensures -(Pow256(|bs|) / 2) <= SignedLittleEndian(bs) < Pow256(|bs|) / 2
  {
    LittleEndianBound(bs);
  }

  /** The `int_value` of an object whose declared size is `size` and whose sliced bytes are `bs`:
      an integer exactly for the sizes 1, 2, 4 and 8, otherwise a note naming the size. */
  function ObjectValue(size: nat, bs: seq<Byte>): (r: IntValue)
    ensures r.Int? <==> size in {1, 2, 4, 8}
    ensures r.NonStandard? ==> r.size == size
  {
    if size == 1 || size == 2 || size == 4 || size == 8 then Int(SignedLittleEndian(bs))
    else NonStandard(size)
  }

  /** Adds `xs` in front of the items a read produced, keeping a failed read failed. */
  function Prepend<T>(xs: seq<T>, r: Option<(seq<T>, nat)>): (r': Option<(seq<T>, nat)>)
    ensures r'.Some? <==> r.Some?
    ensures r.Some? ==> r'.value == (xs + r.value.0, r.value.1)
  {
    match r
    case None => None
    case Some((ys, q)) => Some((xs + ys, q))
  }

  lemma PrependNil<T>(r: Option<(seq<T>, nat)>)
    ensures Prepend([], r) == r
  {
    if r.Some? {
      assert [] + r.value.0 == r.value.0;
    }
  }

  lemma PrependTwice<T>(xs: seq<T>, ys: seq<T>, r: Option<(seq<T>, nat)>)
    ensures Prepend(xs, Prepend(ys, r)) == Prepend(xs + ys, r)
  {
    if r.Some? {
      assert xs + (ys + r.value.0) == (xs + ys) + r.value.0;
    }
  }

  /** The bytes held by a list of arguments. */
  function ArgsLength(args: seq<seq<Byte>>): nat
  {
    if args == [] then 0 else |args[0]| + ArgsLength(args[1..])
  }

  /** The bytes objects take in a file: two 4-byte prefixes, the name and the declared data each. */
  function ObjectsLength(objs: seq<KObject>): nat
  {
    if objs == [] then 0 else 8 + |objs[0].name| + objs[0].size + ObjectsLength(objs[1..])
  }

  /** Reads `count` length-prefixed arguments from offset `p`: the arguments and the offset
      after them, or None when a length prefix runs past the end. */
  function ReadArgs(data: seq<Byte>, p: nat, count: nat): (r: Option<(seq<seq<Byte>>, nat)>)
    ensures r.Some? ==> |r.value.0| == count && r.value.1 >= p + 4 * count
    decreases count
  {
    if count == 0 then Some(([], p))
    else match ReadU32(data, p)
      case None => None
      case Some(size) =>
        Prepend([Slice(data, p + 4, size)], ReadArgs(data, p + 4 + size, count - 1))
  }

  /** Each argument moves the offset by its 4-byte prefix and its declared length. Only the
      last body can be cut short by the end of the buffer (a prefix after a cut body would
      run past the end), so the offset is exact whenever it stays inside the buffer. */
  lemma {:induction false} ReadArgsAdvance(data: seq<Byte>, p: nat, count: nat)
    ensures var r := ReadArgs(data, p, count);
            r.Some? ==> r.value.1 >= p + 4 * count + ArgsLength(r.value.0)
    ensures var r := ReadArgs(data, p, count);
            r.Some? && r.value.1 <= |data| ==> r.value.1 == p + 4 * count + ArgsLength(r.value.0)
    ensures ReadArgs(data, p, count).Some? && count > 0 ==> p + 4 <= |data|
    decreases count
  {
    if count > 0 && ReadU32(data, p).Some? {
      var size := ReadU32(data, p).value;
      var arg := Slice(data, p + 4, size);
      var rest := ReadArgs(data, p + 4 + size, count - 1);
      ReadArgsAdvance(data, p + 4 + size, count - 1);
      if rest.Some? {
        assert ([arg] + rest.value.0)[1..] == rest.value.0;
        assert ArgsLength([arg] + rest.value.0) == |arg| + ArgsLength(rest.value.0);
      }
    }
  }

  /** Reads one object from offset `p`: the object and the offset after it. */
  function ReadObject(data: seq<Byte>, p: nat): (r: Option<(KObject, nat)>)
    ensures r.Some? ==> r.value.1 >= p + 8 + r.value.0.size
  {
    match ReadU32(data, p)
    case None => None
    case Some(nameSize) =>
      var name := Slice(data, p + 4, nameSize);
      match ReadU32(data, p + 4 + nameSize)
      case None => None
      case Some(dataSize) =>
        var bytes := Slice(data, p + 8 + nameSize, dataSize);
        Some((KObject(name, dataSize, bytes), p + 8 + nameSize + dataSize))
  }

  /** What one object read returns: the two length prefixes are the big-endian words at the
      cursor and after the name, the name is never cut short (the data-size prefix follows
      it), the declared size is kept as read, and the offset moves by 8 plus both lengths.
      It fails exactly when one of the two prefixes runs past the end. */
  lemma ReadObjectFields(data: seq<Byte>, p: nat)
    ensures var r := ReadObject(data, p);
            r.Some? ==> && ReadU32(data, p) == Some(|r.value.0.name|)
                        && p + 8 + |r.value.0.name| <= |data|
                        && r.value.0.name == data[p + 4..p + 4 + |r.value.0.name|]
                        && ReadU32(data, p + 4 + |r.value.0.name|) == Some(r.value.0.size)
                        && r.value.0.rawBytes == Slice(data, p + 8 + |r.value.0.name|, r.value.0.size)
                        && r.value.1 == p + 8 + |r.value.0.name| + r.value.0.size
    ensures ReadObject(data, p).None? <==>
              ReadU32(data, p).None? || ReadU32(data, p + 4 + ReadU32(data, p).value).None?
  {
    if ReadU32(data, p).Some? {
      SliceWindow(data, p + 4, ReadU32(data, p).value);
    }
  }

  /** Reads `count` objects from offset `p`. */
  function ReadObjects(data: seq<Byte>, p: nat, count: nat): (r: Option<(seq<KObject>, nat)>)
    ensures r.Some? ==> |r.value.0| == count && r.value.1 >= p + 8 * count
    decreases count
  {
    if count == 0 then Some(([], p))
    else match ReadObject(data, p)
      case None => None
      case Some((obj, q)) => Prepend([obj], ReadObjects(data, q, count - 1))
  }

  /** The object loop moves the offset by exactly 8 bytes of prefixes plus the name length
      and the declared data length of every object it reads. */
  lemma {:induction false} ReadObjectsAdvance(data: seq<Byte>, p: nat, count: nat)
    ensures var r := ReadObjects(data, p, count);
            r.Some? ==> r.value.1 == p + ObjectsLength(r.value.0)
    decreases count
  {
    if count > 0 && ReadObject(data, p).Some? {
      var (obj, q) := ReadObject(data, p).value;
      ReadObjectFields(data, p);
      ReadObjectsAdvance(data, q, count - 1);
      var rest := ReadObjects(data, q, count - 1);
      if rest.Some? {
        assert ([obj] + rest.value.0)[1..] == rest.value.0;
      }
    }
  }

  predicate HasMagic(data: seq<Byte>)
  {
    |data| >= 5 && data[..5] == Magic
  }

  /** The offset of the object count: past the symbolic-argument block when the version is 2 or more. */
  function SkipSymArgs(data: seq<Byte>, version: nat, p: nat): (r: Option<nat>)
    ensures version < 2 ==> r == Some(p)
  {
    if version < 2 then Some(p)
    else match ReadU32(data, p)
      case None => None
      case Some(_) =>
        match ReadU32(data, p + 4)
        case None => None
        case Some(len) => Some(p + 8 + len)
  }

  /** The decoding of a buffer, as one expression: the magic, then the header and arguments. */
  function Decode(data: seq<Byte>): (r: Outcome)
    ensures r != FileNotFound
    ensures r.Invalid? <==> !HasMagic(data)
    ensures r.Invalid? ==> r.error == InvalidFormat
    ensures HasMagic(data) && |data| < 13 ==> r == StructError
  {
    if |data| < 5 || data[..5] != Magic then Invalid(InvalidFormat)
    else match ReadU32(data, 5)
      case None => StructError
      case Some(version) =>
        match ReadU32(data, 9)
        case None => StructError
        case Some(numArgs) =>
          match ReadArgs(data, 13, numArgs)
          case None => StructError
          case Some((args, p)) => DecodeObjects(data, version, args, p)
  }

  /** The rest of the decoding once the arguments end at offset `p`: the symbolic-argument
      block, then the object table. */
  function DecodeObjects(data: seq<Byte>, version: nat, args: seq<seq<Byte>>, p: nat): (r: Outcome)
    ensures r.Valid? || r == StructError
    ensures r.Valid? ==> r.test.version == version && r.test.args == args
  {
    match SkipSymArgs(data, version, p)
    case None => StructError
    case Some(q) =>
      match ReadU32(data, q)
      case None => StructError
      case Some(numObjects) =>
        match ReadObjects(data, q + 4, numObjects)
        case None => StructError
        case Some((objects, _)) => Valid(KTest(version, args, objects))
  }

  /** The argument loop of `parse_ktest`: from cursor `p`, reads `count` length-prefixed
      arguments, appending each; None when `struct.unpack` would raise. */
  method ScanArgs(data: seq<Byte>, p: nat, count: nat) returns (r: Option<(seq<seq<Byte>>, nat)>)
    ensures r == ReadArgs(data, p, count)
  {
    var ptr := p;
    var args: seq<seq<Byte>> := [];
    var i := 0;
    PrependNil(ReadArgs(data, ptr, count));
    while i < count
      invariant 0 <= i <= count
      invariant ReadArgs(data, p, count) == Prepend(args, ReadArgs(data, ptr, count - i))
    {
      var size := ReadU32(data, ptr);
      if size.None? {
        return None;
      }
      ptr := ptr + 4;
      var arg := Slice(data, ptr, size.value);
      PrependTwice(args, [arg], ReadArgs(data, ptr + size.value, count - i - 1));
      ptr := ptr + size.value;
      args := args + [arg];
      i := i + 1;
    }
    assert args + [] == args;
    return Some((args, ptr));
  }

  /** One pass of the object loop of `parse_ktest`: name length, name, data length, data. */
  method ScanObject(data: seq<Byte>, p: nat) returns (r: Option<(KObject, nat)>)
    ensures r == ReadObject(data, p)
  {
    var ptr := p;
    var nameSize := ReadU32(data, ptr);
    if nameSize.None? {
      return None;
    }
    ptr := ptr + 4;
    var name := Slice(data, ptr, nameSize.value);
    ptr := ptr + nameSize.value;

    var dataSize := ReadU32(data, ptr);
    if dataSize.None? {
      return None;
    }
    ptr := ptr + 4;
    var objBytes := Slice(data, ptr, dataSize.value);
    ptr := ptr + dataSize.value;

    return Some((KObject(name, dataSize.value, objBytes), ptr));
  }

  /** The object loop of `parse_ktest`: from cursor `p`, reads `count` objects, appending
      each; None when `struct.unpack` would raise. */
  method ScanObjects(data: seq<Byte>, p: nat, count: nat) returns (r: Option<(seq<KObject>, nat)>)
    ensures r == ReadObjects(data, p, count)
  {
    var ptr := p;
    var objects: seq<KObject> := [];
    var j := 0;
    PrependNil(ReadObjects(data, ptr, count));
    while j < count
      invariant 0 <= j <= count
      invariant ReadObjects(data, p, count) == Prepend(objects, ReadObjects(data, ptr, count - j))
    {
      var next := ScanObject(data, ptr);
      if next.None? {
        return None;
      }
      var obj := next.value.0;
      ptr := next.value.1;
      PrependTwice(objects, [obj], ReadObjects(data, ptr, count - j - 1));
      objects := objects + [obj];
      j := j + 1;
    }
    assert objects + [] == objects;
    return Some((objects, ptr));
  }

  /** `parse_ktest`: checks the magic, then moves the cursor over the version and the
      arguments, then over the symbolic-argument block (version 2 and later) and the objects. */
  method ParseKTest(file: Option<seq<Byte>>) returns (r: Outcome)
    ensures file.None? ==> r == FileNotFound
    ensures file.Some? ==> r == Decode(file.value)
    ensures file.Some? && !HasMagic(file.value) ==> r == Invalid(InvalidFormat)
    ensures file.Some? && HasMagic(file.value) && |file.value| < 13 ==> r == StructError
  {
    if file.None? {
      return FileNotFound;
    }
    var data := file.value;
    var ptr: nat := 0;
    if |data| < 5 || data[ptr..ptr + 5] != Magic {
      return Invalid(InvalidFormat);
    }
    ptr := ptr + 5;

    var version := ReadU32(data, ptr);
    if version.None? {
      return StructError;
    }
    ptr := ptr + 4;

    var numArgs := ReadU32(data, ptr);
    if numArgs.None? {
      return StructError;
    }
    ptr := ptr + 4;

    var argsRead := ScanArgs(data, ptr, numArgs.value);
    if argsRead.None? {
      return StructError;
    }
    r := ScanRest(data, version.value, argsRead.value.0, argsRead.value.1);
  }

  /** The second half of `parse_ktest`, from the cursor `p` just after the arguments. */
  method ScanRest(data: seq<Byte>, version: nat, args: seq<seq<Byte>>, p: nat) returns (r: Outcome)
    ensures r == DecodeObjects(data, version, args, p)
  {
    var ptr := p;
    if version >= 2 {
      var symArgvs := ReadU32(data, ptr);
      if symArgvs.None? {
        return StructError;
      }
      ptr := ptr + 4;
      var symArgvLen := ReadU32(data, ptr);
      if symArgvLen.None? {
        return StructError;
      }
      ptr := ptr + 4;
      ptr := ptr + symArgvLen.value;
    }

    var numObjects := ReadU32(data, ptr);
    if numObjects.None? {
      return StructError;
    }
    ptr := ptr + 4;

    var objectsRead := ScanObjects(data, ptr, numObjects.value);
    if objectsRead.None? {
      return StructError;
    }
    return Valid(KTest(version, args, objectsRead.value.0));
  }

  // ---------------------------------------------------------------------------
  // KLEE .err reports
  // ---------------------------------------------------------------------------

  const ErrorLabel := "Error: "
  const FileLabel := "File: "
  const LineLabel := "Line: "
  const AssemblyMarker := "assembly.ll "
  const AssemblyLabel := "line "
  /** The text of the IndexError raised when line 4 names the listing but has no "line ". */
  const IndexErrorText := "list index out of range"

  /** The dictionary `parse_klee_error` starts from. */
  const Defaults := NoKeys.(kind := Some("Unknown"), file := Some("Unknown"), line := Some(0),
                            message := Some(""), assemblyLine := Some(0))

  /** The "type" field: the text after the first "Error: " of line 1 (up to any second one), stripped. */
  function KindOf(lines: seq<string>): string
  {
    if |lines| > 0 && Contains(lines[0], ErrorLabel) then Strip(SecondField(lines[0], ErrorLabel)) else "Unknown"
  }

  /** The "file" field: the text after "File: " on line 2, stripped. */
  function FileOf(lines: seq<string>): string
  {
    if |lines| > 1 && Contains(lines[1], FileLabel) then Strip(SecondField(lines[1], FileLabel)) else "Unknown"
  }

  /** The "line" field: the integer after "Line: " on line 3; 0 when absent or not an integer. */
  function LineOf(lines: seq<string>): int
  {
    if |lines| > 2 && Contains(lines[2], LineLabel) then
      ParseInt(Strip(SecondField(lines[2], LineLabel))).GetOr(0)
    else 0
  }

  /** Line 4 names the instruction listing. */
  predicate NamesListing(lines: seq<string>)
  {
    |lines| > 3 && Contains(lines[3], AssemblyMarker)
  }

  /** The "assembly_line" field: the integer after "line " on a line 4 that names the listing. */
  function AssemblyLineOf(lines: seq<string>): int
  {
    if NamesListing(lines) && Contains(lines[3], AssemblyLabel) then
      ParseInt(Strip(SecondField(lines[3], AssemblyLabel))).GetOr(0)
    else 0
  }

  /** The dictionary `parse_klee_error` returns for the lines of an existing report. */
  function ErrorDetails(lines: seq<string>): (d: Bug)
    ensures lines == [] ==> d == Defaults
    ensures |lines| > 0 ==> d.message == Some(Strip(lines[0]))
    ensures |lines| == 0 || !Contains(lines[0], ErrorLabel) ==> d.kind == Defaults.kind
    ensures |lines| <= 1 || !Contains(lines[1], FileLabel) ==> d.file == Defaults.file
    ensures |lines| <= 2 || !Contains(lines[2], LineLabel) ==> d.line == Defaults.line
    ensures (|lines| > 2 && Contains(lines[2], LineLabel)
             && ParseInt(Strip(SecondField(lines[2], LineLabel))).None?) ==> d.line == Defaults.line
    ensures !NamesListing(lines) ==> d.assemblyLine == Defaults.assemblyLine
    ensures (NamesListing(lines) && Contains(lines[3], AssemblyLabel)
             && ParseInt(Strip(SecondField(lines[3], AssemblyLabel))).None?) ==>
              d.assemblyLine == Defaults.assemblyLine
    ensures d.parseError.Some? <==> NamesListing(lines) && !Contains(lines[3], AssemblyLabel)
    ensures d.parseError.Some? ==> d.assemblyLine == Defaults.assemblyLine
  {
    Defaults.(
      message := Some(if |lines| > 0 then Strip(lines[0]) else ""),
      kind := Some(KindOf(lines)),
      file := Some(FileOf(lines)),
      line := Some(LineOf(lines)),
      assemblyLine := Some(AssemblyLineOf(lines)),
      parseError := if NamesListing(lines) && !Contains(lines[3], AssemblyLabel) then Some(IndexErrorText) else None)
  }

  /** `parse_klee_error`: starts from the defaults and overwrites one field per recognised line.
      `file` holds the report's lines (`readlines()`), or None when the path does not exist. */
  method ParseKleeError(file: Option<seq<string>>) returns (details: Bug)
    ensures file.None? ==> details == NoKeys.(error := Some(ErrorFileNotFound))
    ensures file.Some? ==> details == ErrorDetails(file.value)
    ensures file.Some? ==> details.kind.Some? && details.file.Some? && details.line.Some?
                           && details.message.Some? && details.assemblyLine.Some?
  {
    if file.None? {
      return NoKeys.(error := Some(ErrorFileNotFound));
    }
    var lines := file.value;
    // The five keys of the dictionary, starting from their defaults.
    var kind, source, line, message, assemblyLine := "Unknown", "Unknown", 0, "", 0;
    var parseError: Option<string> := None;

    if |lines| > 0 {
      message := Strip(lines[0]);
      if Contains(lines[0], ErrorLabel) {
        kind := Strip(SecondField(lines[0], ErrorLabel));
      }
    }

    if |lines| > 1 && Contains(lines[1], FileLabel) {
      source := Strip(SecondField(lines[1], FileLabel));
    }

    if |lines| > 2 && Contains(lines[2], LineLabel) {
      var n := ParseInt(Strip(SecondField(lines[2], LineLabel)));
      if n.Some? {
        line := n.value;
      }
    }

    if |lines| > 3 && Contains(lines[3], AssemblyMarker) {
      if !Contains(lines[3], AssemblyLabel) {
        // `split("line ")[1]` raises IndexError; the handler records it and keeps the rest.
        parseError := Some(IndexErrorText);
      } else {
        var n := ParseInt(Strip(SecondField(lines[3], AssemblyLabel)));
        if n.Some? {
          assemblyLine := n.value;
        }
      }
    }
    details := Defaults.(kind := Some(kind), file := Some(source), line := Some(line), message := Some(message),
                         assemblyLine := Some(assemblyLine), parseError := parseError);
  }

  /** The first lines of a report in the layout the parser reads: the error, the source
      file, the source line and the listing line, each ending in a newline. */
  function ReportLines(kind: string, file: string, line: int, assemblyLine: int): seq<string>
  {
    [ ErrorLabel + kind + "\n",
      FileLabel + file + "\n",
      LineLabel + IntToString(line) + "\n",
      AssemblyMarker + AssemblyLabel + IntToString(assemblyLine) + "\n" ]
  }

  /** In the listing line, "line " first occurs right after the marker. */
  lemma ListingLabelPosition()
    ensures Find(AssemblyMarker + AssemblyLabel, AssemblyLabel, 0) == |AssemblyMarker|
  {
    var u := AssemblyMarker + AssemblyLabel;
    forall i | 0 <= i < |AssemblyMarker| ensures !OccursAt(u, AssemblyLabel, i) {
      assert u[i..i + 5][1] == u[i + 1];
      assert u[i..i + 5][0] == u[i];
    }
    assert OccursAt(u, AssemblyLabel, |AssemblyMarker|);
  }

  /** The text after `tag` on a line `tag + t + "\n"`, stripped, is `t`. */
  lemma LabelledField(tag: string, t: string)
    requires |tag| > 0 && tag[|tag| - 1] != '\n'
    requires Trimmed(t) && !Contains(t, tag)
    ensures Contains(tag + t + "\n", tag)
    ensures Strip(SecondField(tag + t + "\n", tag)) == t
  {
    NotContainsAppend(t, '\n', tag);
    SecondFieldAfterPrefix(tag, t + "\n");
    assert tag + t + "\n" == tag + (t + "\n");
    StripLine(t);
  }

  /** The integer after `tag` on a line `tag + str(n) + "\n"` is `n`. */
  lemma LabelledNumber(tag: string, n: int)
    requires |tag| > 0 && tag[|tag| - 1] != '\n' && !IsDigit(tag[0]) && tag[0] != '-'
    ensures Contains(tag + IntToString(n) + "\n", tag)
    ensures ParseInt(Strip(SecondField(tag + IntToString(n) + "\n", tag))) == Some(n)
  {
    IntToStringChars(n);
    NotContainsFirstChar(IntToString(n), tag);
    LabelledField(tag, IntToString(n));
    ParseIntToString(n);
  }

  /** The integer after "line " on a listing line `"assembly.ll line " + str(n) + "\n"` is `n`. */
  lemma ListingNumber(n: int)
    ensures Contains(AssemblyMarker + AssemblyLabel + IntToString(n) + "\n", AssemblyMarker)
    ensures Contains(AssemblyMarker + AssemblyLabel + IntToString(n) + "\n", AssemblyLabel)
    ensures ParseInt(Strip(SecondField(AssemblyMarker + AssemblyLabel + IntToString(n) + "\n", AssemblyLabel))) == Some(n)
  {
    var digits := IntToString(n) + "\n";
    var l4 := AssemblyMarker + AssemblyLabel + IntToString(n) + "\n";
    var head := AssemblyMarker + AssemblyLabel;
    assert l4 == head + digits;
    assert StartsWith(l4, AssemblyMarker) by { assert l4[..|AssemblyMarker|] == AssemblyMarker; }
    FindAtStart(l4, AssemblyMarker);
    ListingLabelPosition();
    FindExtend(head, digits, AssemblyLabel);
    IntToStringChars(n);
    NotContainsFirstChar(IntToString(n), AssemblyLabel);
    NotContainsAppend(IntToString(n), '\n', AssemblyLabel);
    assert l4[|head|..] == digits;
    StripLine(IntToString(n));
    ParseIntToString(n);
  }

  lemma KindLine(kind: string, lines: seq<string>)
    requires Trimmed(kind) && !Contains(kind, ErrorLabel)
    requires |lines| > 0 && lines[0] == ErrorLabel + kind + "\n"
    ensures Strip(lines[0]) == ErrorLabel + kind && KindOf(lines) == kind
  {
    LabelledField(ErrorLabel, kind);
    StripLine(ErrorLabel + kind);
  }

  lemma FileLine(file: string, lines: seq<string>)
    requires Trimmed(file) && !Contains(file, FileLabel)
    requires |lines| > 1 && lines[1] == FileLabel + file + "\n"
    ensures FileOf(lines) == file
  {
    LabelledField(FileLabel, file);
  }

  lemma NumberLine(line: int, lines: seq<string>)
    requires |lines| > 2 && lines[2] == LineLabel + IntToString(line) + "\n"
    ensures LineOf(lines) == line
  {
    LabelledNumber(LineLabel, line);
  }

  lemma ListingLine(assemblyLine: int, lines: seq<string>)
    requires |lines| > 3 && lines[3] == AssemblyMarker + AssemblyLabel + IntToString(assemblyLine) + "\n"
    ensures AssemblyLineOf(lines) == assemblyLine
    ensures NamesListing(lines) && Contains(lines[3], AssemblyLabel)
  {
    ListingNumber(assemblyLine);
  }

  /** The fields of a report in the parser's layout, one by one. */
  lemma ReportFields(kind: string, file: string, line: int, assemblyLine: int, lines: seq<string>)
    requires Trimmed(kind) && !Contains(kind, ErrorLabel)
    requires Trimmed(file) && !Contains(file, FileLabel)
    requires |lines| >= 4 && lines[..4] == ReportLines(kind, file, line, assemblyLine)
    ensures Strip(lines[0]) == ErrorLabel + kind && KindOf(lines) == kind && FileOf(lines) == file
    ensures LineOf(lines) == line && AssemblyLineOf(lines) == assemblyLine
    ensures NamesListing(lines) && Contains(lines[3], AssemblyLabel)
  {
    assert lines[0] == lines[..4][0];
    assert lines[1] == lines[..4][1];
    assert lines[2] == lines[..4][2];
    assert lines[3] == lines[..4][3];
    KindLine(kind, lines);
    FileLine(file, lines);
    NumberLine(line, lines);
    ListingLine(assemblyLine, lines);
  }

  /** The parser recovers every field of a report written in its layout, whatever follows
      the first four lines; the message is the first line without its newline. */
  lemma ReportRoundTrip(kind: string, file: string, line: int, assemblyLine: int, rest: seq<string>)
    requires Trimmed(kind) && !Contains(kind, ErrorLabel)
    requires Trimmed(file) && !Contains(file, FileLabel)
    ensures ErrorDetails(ReportLines(kind, file, line, assemblyLine) + rest)
         == Defaults.(kind := Some(kind), file := Some(file), line := Some(line),
                      message := Some(ErrorLabel + kind), assemblyLine := Some(assemblyLine))
  {
    var lines := ReportLines(kind, file, line, assemblyLine) + rest;
    assert lines[..4] == ReportLines(kind, file, line, assemblyLine);
    ReportFields(kind, file, line, assemblyLine, lines);
  }
}
