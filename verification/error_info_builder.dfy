/** RaygunErrorInfoBuilder: turns an exception tree into the RaygunErrorInfo tree of
    a crash report. Each node carries the exception's message, data, formatted type
    name, parsed managed stack trace and native frames; the native images the frames
    point into are read once each and collected at the root. */
module ErrorInfoBuilder {
  import opened Common
  import opened Exceptions
  import opened PeImage

  /** RaygunStackTraceFrame */
  datatype StackFrame = StackFrame(
    raw: string,
    className: Option<string>,
    methodName: Option<string>,
    fileName: Option<string>,
    lineNumber: Option<int>)

  /** RaygunNativeStackTraceFrame */
  datatype NativeStackFrame = NativeStackFrame(ip: int, imageBase: int)

  /** RaygunErrorInfo */
  datatype ErrorInfo = ErrorInfo(
    innerError: Option<ErrorInfo>,
    innerErrors: Option<seq<ErrorInfo>>,
    data: Data,
    className: string,
    message: string,
    stackTrace: Option<seq<StackFrame>>,
    nativeStackTrace: Option<seq<NativeStackFrame>>,
    images: Option<seq<ImageInfo>>)

  /** The loaded images of the process, by base address. An address that is not
      mapped reads as an empty image, so every read from it faults. */
  type Memory = map<int, Image>

  function ImageBytes(mem: Memory, base: int): Image {
    if base in mem then mem[base] else []
  }

  // ---------------------------------------------------------------------------
  // FormatTypeName

  /** The type name as the client writes it (with the `fullName` flag it starts from
      Type.FullName, otherwise from Type.Name): verbatim for a non-generic type; for
      a generic one the text before the backtick, then the comma-separated short
      names of the type arguments in angle brackets. None where the client raises:
      a generic type whose name has no backtick, as for a type nested in a generic
      type, makes Substring(0, -1) throw. */
  function FormatTypeNameAsWritten(t: TypeInfo, fullName: bool): (r: Option<string>)
    decreases t, 1
  {
    var name := if fullName then t.fullName else t.name;
    if t.genericArguments == [] then Some(name)
    else
      var tick := IndexOf(name, '`');
      if tick < 0 then None
      else
        match ArgumentsAsWritten(t, 0)
        case None => None
        case Some(arguments) =>
          // the trailing comma is removed
          Some(name[..tick] + "<" + arguments[..|arguments| - 1] + ">")
  }

  /** The text the StringBuilder receives for the arguments from `i` on: each
      argument's short name followed by a comma. */
  function ArgumentsAsWritten(t: TypeInfo, i: nat): (r: Option<string>)
    requires i <= |t.genericArguments|
    ensures r.Some? && i < |t.genericArguments| ==> r.value != [] && r.value[|r.value| - 1] == ','
    decreases t, 0, |t.genericArguments| - i
  {
    if i == |t.genericArguments| then Some([])
    else
      match FormatTypeNameAsWritten(t.genericArguments[i], false)
      case None => None
      case Some(argument) =>
        match ArgumentsAsWritten(t, i + 1)
        case None => None
        case Some(rest) => Some(argument + "," + rest)
  }

  /** FormatTypeName, with a generic type whose name has no backtick written under
      its whole name instead of raising. */
  function FormatTypeName(t: TypeInfo, fullName: bool): (r: string)
    decreases t, 1
  {
    var name := if fullName then t.fullName else t.name;
    if t.genericArguments == [] then name
    else
      var tick := IndexOf(name, '`');
      (if tick < 0 then name else name[..tick]) + "<" + JoinWithComma(FormattedArguments(t, 0)) + ">"
  }

  /** The short names of the type arguments from `i` on. */
  function FormattedArguments(t: TypeInfo, i: nat): (r: seq<string>)
    requires i <= |t.genericArguments|
    ensures |r| == |t.genericArguments| - i
    ensures forall k :: 0 <= k < |r| ==> r[k] == FormatTypeName(t.genericArguments[i + k], false)
    decreases t, 0, |t.genericArguments| - i
  {
    if i == |t.genericArguments| then []
    else [FormatTypeName(t.genericArguments[i], false)] + FormattedArguments(t, i + 1)
  }

  /** True when every generic type in `t`, itself and its arguments at any depth,
      has a backtick in the name the client reads for it. */
  predicate TicksPresent(t: TypeInfo, fullName: bool)
    decreases t, 1
  {
    t.genericArguments == [] ||
    (IndexOf(if fullName then t.fullName else t.name, '`') >= 0 && ArgumentTicksPresent(t, 0))
  }

  predicate ArgumentTicksPresent(t: TypeInfo, i: nat)
    requires i <= |t.genericArguments|
    decreases t, 0, |t.genericArguments| - i
  {
    i == |t.genericArguments| || (TicksPresent(t.genericArguments[i], false) && ArgumentTicksPresent(t, i + 1))
  }

  /** The client's FormatTypeName raises exactly when some generic name lacks its
      backtick, and otherwise agrees with the corrected one. */
  lemma {:induction false} FormatTypeNameAgrees(t: TypeInfo, fullName: bool)
    ensures FormatTypeNameAsWritten(t, fullName).Some? <==> TicksPresent(t, fullName)
    ensures FormatTypeNameAsWritten(t, fullName).Some? ==>
      FormatTypeNameAsWritten(t, fullName).value == FormatTypeName(t, fullName)
    decreases t, 1
  {
    if t.genericArguments != [] {
      ArgumentsAgree(t, 0);
    }
  }

  lemma {:induction false} ArgumentsAgree(t: TypeInfo, i: nat)
    requires i < |t.genericArguments|
    ensures ArgumentsAsWritten(t, i).Some? <==> ArgumentTicksPresent(t, i)
    ensures ArgumentsAsWritten(t, i).Some? ==>
      ArgumentsAsWritten(t, i).value == JoinWithComma(FormattedArguments(t, i)) + ","
    decreases t, 0, |t.genericArguments| - i
  {
    FormatTypeNameAgrees(t.genericArguments[i], false);
    if i + 1 < |t.genericArguments| {
      ArgumentsAgree(t, i + 1);
    }
  }

  /** A non-generic type is written verbatim; a generic one is the text before its
      backtick (its whole name when there is none), then the short names of its
      type arguments, comma-separated, in angle brackets. */
  lemma FormatTypeNameShape(t: TypeInfo, fullName: bool)
    ensures t.genericArguments == [] ==> FormatTypeName(t, fullName) == (if fullName then t.fullName else t.name)
    ensures t.genericArguments != [] ==>
      var name := if fullName then t.fullName else t.name;
      var tick := IndexOf(name, '`');
      var names := seq(|t.genericArguments|, k requires 0 <= k < |t.genericArguments| =>
        FormatTypeName(t.genericArguments[k], false));
      FormatTypeName(t, fullName) == (if tick < 0 then name else name[..tick]) + "<" + JoinWithComma(names) + ">"
  {
    if t.genericArguments != [] {
      var names := seq(|t.genericArguments|, k requires 0 <= k < |t.genericArguments| =>
        FormatTypeName(t.genericArguments[k], false));
      assert FormattedArguments(t, 0) == names;
    }
  }

  /** A nested type of a generic type, used as a type argument, has no backtick in
      its short name: E<O<int>.I> makes the client's FormatTypeName raise, while the
      corrected one writes it out as E<I<Int32>>. */
  lemma NestedGenericArgumentRaises()
    ensures
      var int32 := TypeInfo("System.Int32", "Int32", []);
      var inner := TypeInfo("O`1+I[[System.Int32]]", "I", [int32]);
      var error := TypeInfo("E`1[[O`1+I[[System.Int32]]]]", "E`1", [inner]);
      FormatTypeNameAsWritten(error, true).None? &&
      FormatTypeName(error, true) == "E<I<Int32>>"
  {
    var int32 := TypeInfo("System.Int32", "Int32", []);
    var inner := TypeInfo("O`1+I[[System.Int32]]", "I", [int32]);
    var error := TypeInfo("E`1[[O`1+I[[System.Int32]]]]", "E`1", [inner]);
    IndexOfIs(error.fullName, '`', 1);
    assert IndexOf(inner.name, '`') == -1;
    assert FormatTypeNameAsWritten(inner, false).None?;
    assert ArgumentsAsWritten(error, 0).None?;
    assert FormattedArguments(inner, 0) == ["Int32"];
    assert FormatTypeName(inner, false) == "I<Int32>";
    assert FormattedArguments(error, 0) == ["I<Int32>"];
    assert error.fullName[..1] == "E";
  }

  // ---------------------------------------------------------------------------
  // Managed stack trace (BuildStackTrace)

  predicate IsLineBreak(c: char) {
    c == '\r' || c == '\n'
  }

  /** Split on CR and LF with empty entries removed, `current` being the line read
      so far. */
  function SplitFrom(s: string, current: string): (r: seq<string>)
    ensures forall k :: 0 <= k < |r| ==> r[k] != []
    decreases |s|
  {
    if s == [] then (if current == [] then [] else [current])
    else if IsLineBreak(s[0]) then (if current == [] then [] else [current]) + SplitFrom(s[1..], [])
    else SplitFrom(s[1..], current + [s[0]])
  }

  /** String.Split(new[] {'\r', '\n'}, StringSplitOptions.RemoveEmptyEntries) */
  function SplitLines(s: string): (r: seq<string>)
    ensures forall k :: 0 <= k < |r| ==> r[k] != []
  {
    SplitFrom(s, [])
  }

  predicate NoLineBreak(s: string) {
    forall k :: 0 <= k < |s| ==> !IsLineBreak(s[k])
  }

  /** Lines joined by line feeds. */
  function JoinLines(lines: seq<string>): string {
    if lines == [] then [] else if |lines| == 1 then lines[0] else lines[0] + "\n" + JoinLines(lines[1..])
  }

  lemma {:induction false} SplitFromWord(w: string, t: string, current: string)
    requires NoLineBreak(w)
    ensures SplitFrom(w + t, current) == SplitFrom(t, current + w)
    decreases |w|
  {
    if w != [] {
      assert (w + t)[1..] == w[1..] + t;
      assert current + [w[0]] + w[1..] == current + w;
      SplitFromWord(w[1..], t, current + [w[0]]);
    } else {
      assert w + t == t;
      assert current + w == current;
    }
  }

  /** Splitting non-empty lines without line breaks, joined by line feeds, gives the
      lines back: one frame per non-empty line. */
  lemma {:induction false} SplitJoinRoundTrip(lines: seq<string>)
    requires forall k :: 0 <= k < |lines| ==> lines[k] != [] && NoLineBreak(lines[k])
    ensures SplitLines(JoinLines(lines)) == lines
    decreases |lines|
  {
    if |lines| == 1 {
      SplitFromWord(lines[0], [], []);
      assert lines[0] + [] == lines[0];
      assert [] + lines[0] == lines[0];
      assert JoinLines(lines) == lines[0];
      assert SplitFrom([], lines[0]) == [lines[0]];
    } else if |lines| > 1 {
      var rest := JoinLines(lines[1..]);
      assert JoinLines(lines) == lines[0] + ("\n" + rest);
      SplitFromWord(lines[0], "\n" + rest, []);
      assert [] + lines[0] == lines[0];
      assert ("\n" + rest)[1..] == rest;
      SplitJoinRoundTrip(lines[1..]);
    }
  }

  /** The frame text of a stack-trace line: trimmed, without a leading "at ". */
  function FrameText(line: string): string {
    var trimmed := Trim(line);
    if StartsWith(trimmed, "at ") then trimmed[3..] else trimmed
  }

  /** One stack-trace line as a frame: its frame text, split at the last dot before
      the parameter list into class and method names. */
  function ParseFrame(line: string): StackFrame {
    FrameOf(FrameText(line))
  }

  /** The frame of a frame text. */
  function FrameOf(raw: string): StackFrame {
    var open := IndexOf(raw, '(');
    if open > 0 && LastIndexOfFrom(raw, '.', open) > 0 then
      var dot := LastIndexOfFrom(raw, '.', open);
      StackFrame(raw, Some(raw[..dot]), Some(raw[dot + 1..]), None, None)
    else
      StackFrame(raw, None, None, None, None)
  }

  /** The frame keeps the frame text as Raw and never sets a file or line. Class and
      method names are set together, exactly when a "(" occurs after the start and a
      "." occurs after the start and before it; then they rebuild Raw around that
      dot, and the method name holds the parameter list and no dot before it. */
  lemma ParseFrameShape(line: string)
    ensures var r := ParseFrame(line);
      r.raw == FrameText(line) &&
      r.fileName.None? && r.lineNumber.None? &&
      (r.className.Some? <==> r.methodName.Some?) &&
      (r.className.Some? <==>
        (IndexOf(r.raw, '(') > 0 && LastIndexOfFrom(r.raw, '.', IndexOf(r.raw, '(')) > 0)) &&
      (r.className.Some? ==>
        r.className.value + "." + r.methodName.value == r.raw &&
        r.className.value != [] &&
        0 <= IndexOf(r.methodName.value, '(') &&
        forall k :: 0 <= k < IndexOf(r.methodName.value, '(') ==> r.methodName.value[k] != '.')
  {
    FrameOfShape(FrameText(line));
  }

  lemma FrameOfShape(raw: string)
    ensures var r := FrameOf(raw);
      r.raw == raw &&
      r.fileName.None? && r.lineNumber.None? &&
      (r.className.Some? <==> r.methodName.Some?) &&
      (r.className.Some? <==>
        (IndexOf(raw, '(') > 0 && LastIndexOfFrom(raw, '.', IndexOf(raw, '(')) > 0)) &&
      (r.className.Some? ==>
        r.className.value + "." + r.methodName.value == raw &&
        r.className.value != [] &&
        0 <= IndexOf(r.methodName.value, '(') &&
        forall k :: 0 <= k < IndexOf(r.methodName.value, '(') ==> r.methodName.value[k] != '.')
  {
    var open := IndexOf(raw, '(');
    if open > 0 && LastIndexOfFrom(raw, '.', open) > 0 {
      MethodNameShape(raw, open, LastIndexOfFrom(raw, '.', open));
    }
  }

  /** Split at the last dot before the first "(": the two names rebuild the text,
      and the method name holds the "(" with no dot before it. */
  lemma MethodNameShape(raw: string, open: int, dot: int)
    requires 0 < open < |raw| && open == IndexOf(raw, '(')
    requires 0 < dot && dot == LastIndexOfFrom(raw, '.', open)
    ensures raw[..dot] + "." + raw[dot + 1..] == raw
    ensures var m := raw[dot + 1..];
      0 <= IndexOf(m, '(') && forall k :: 0 <= k < IndexOf(m, '(') ==> m[k] != '.'
  {
    assert raw[..dot] + "." + raw[dot + 1..] == raw by {
      assert raw[..dot] + "." + raw[dot + 1..] == raw[..dot] + raw[dot..];
    }
    var m := raw[dot + 1..];
    var j := open - dot - 1;
    forall k | 0 <= k < j
      ensures m[k] != '(' && m[k] != '.'
    {
      assert m[k] == raw[dot + 1 + k];
    }
    IndexOfIs(m, '(', j);
  }

  lemma IndexOfIs(s: string, c: char, i: int)
    requires 0 <= i < |s| && s[i] == c && forall k :: 0 <= k < i ==> s[k] != c
    ensures IndexOf(s, c) == i
  {
  }

  /** The frames of a managed stack-trace text, one per non-empty line; None when
      the exception has no stack trace or it has no non-empty line. */
  function StackTraceOf(stackTrace: Option<string>): (r: Option<seq<StackFrame>>)
    ensures r.Some? <==> stackTrace.Some? && SplitLines(stackTrace.value) != []
    ensures r.Some? ==>
      |r.value| == |SplitLines(stackTrace.value)| &&
      forall k :: 0 <= k < |r.value| ==> r.value[k] == ParseFrame(SplitLines(stackTrace.value)[k])
  {
    if stackTrace.None? then None
    else
      var lines := SplitLines(stackTrace.value);
      if lines == [] then None else Some(FramesOf(lines))
  }

  /** The frame of each line, in order. */
  function FramesOf(lines: seq<string>): (r: seq<StackFrame>)
    ensures |r| == |lines| && forall k :: 0 <= k < |lines| ==> r[k] == ParseFrame(lines[k])
  {
    seq(|lines|, k requires 0 <= k < |lines| => ParseFrame(lines[k]))
  }

  /** BuildStackTrace */
  method BuildStackTrace(stackTrace: Option<string>) returns (r: Option<seq<StackFrame>>)
    ensures r == StackTraceOf(stackTrace)
  {
    if stackTrace.None? {
      return None;
    }
    var lines := SplitLines(stackTrace.value);
    var frames := ParseFrames(lines);
    r := if |frames| == 0 then None else Some(frames);
  }

  /** The loop over the lines of BuildStackTrace: one frame per line, in order. */
  method ParseFrames(lines: seq<string>) returns (frames: seq<StackFrame>)
    ensures frames == FramesOf(lines)
  {
    frames := [];
    for i := 0 to |lines|
      invariant |frames| == i && forall k :: 0 <= k < i ==> frames[k] == ParseFrame(lines[k])
    {
      frames := frames + [ParseFrame(lines[i])];
    }
  }

  // ---------------------------------------------------------------------------
  // Native stack trace (BuildNativeStackTrace) and the image cache

  /** An entry of the `images` dictionary: an image base and what ReadImage
      returned for it (null when the image has no usable debug information). */
  datatype ImageEntry = ImageEntry(base: int, info: Option<ImageInfo>)

  type Cache = seq<ImageEntry>

  predicate Cached(cache: Cache, base: int) {
    exists k :: 0 <= k < |cache| && cache[k].base == base
  }

  /** The image cache as a dictionary that lives across the whole build. */
  class ImageCache {
    var entries: Cache

    constructor ()
      ensures entries == []
    {
      entries := [];
    }

    method Contains(base: int) returns (b: bool)
      ensures b == Cached(entries, base)
    {
      b := false;
      for k := 0 to |entries|
        invariant b == exists j :: 0 <= j < k && entries[j].base == base
      {
        if entries[k].base == base {
          b := true;
        }
      }
    }

    method Add(base: int, info: Option<ImageInfo>)
      modifies this
      ensures entries == old(entries) + [ImageEntry(base, info)]
    {
      entries := entries + [ImageEntry(base, info)];
    }
  }

  /** The native frames of the frames that have a native image, in order. */
  function NativeFramesOf(frames: seq<NativeFrame>): seq<NativeStackFrame> {
    if frames == [] then []
    else
      var last := frames[|frames| - 1];
      NativeFramesOf(frames[..|frames| - 1]) +
        (if last.hasNativeImage then [NativeStackFrame(last.ip, last.imageBase)] else [])
  }

  /** True when the image of every frame among the first `n` that has one reads
      without a fault. */
  predicate ImagesReadable(mem: Memory, frames: seq<NativeFrame>, n: nat)
    requires n <= |frames|
  {
    forall k :: 0 <= k < n && frames[k].hasNativeImage ==>
      ImageInfoOf(ImageBytes(mem, frames[k].imageBase), frames[k].imageBase).Ok?
  }

  /** The scan of the first `n` frames: the native frames so far (or a fault, when
      reading an image faulted) and the cache after it. */
  function NativeScan(mem: Memory, frames: seq<NativeFrame>, n: nat, cache: Cache): (r: (Read<seq<NativeStackFrame>>, Cache))
    requires n <= |frames|
    ensures r.0.Ok? ==> r.0.value == NativeFramesOf(frames[..n])
    // only an image read faults the scan
    ensures r.0.Fault? ==>
      exists k :: 0 <= k < n && frames[k].hasNativeImage &&
        ImageInfoOf(ImageBytes(mem, frames[k].imageBase), frames[k].imageBase).Fault?
    ensures ImagesReadable(mem, frames, n) ==> r.0.Ok?
    decreases n
  {
    if n == 0 then (Ok([]), cache)
    else
      var (lines, cache1) := NativeScan(mem, frames, n - 1, cache);
      var f := frames[n - 1];
      assert frames[..n][..n - 1] == frames[..n - 1];
      if lines.Fault? || !f.hasNativeImage then (lines, cache1)
      else if Cached(cache1, f.imageBase) then (Ok(lines.value + [NativeStackFrame(f.ip, f.imageBase)]), cache1)
      else
        match ImageInfoOf(ImageBytes(mem, f.imageBase), f.imageBase)
        case Fault => (Fault, cache1)
        case Ok(info) => (Ok(lines.value + [NativeStackFrame(f.ip, f.imageBase)]), cache1 + [ImageEntry(f.imageBase, info)])
  }

  /** The native stack trace of an exception and the cache after it: a fault when
      the runtime gives no frames (iterating null raises) or an image read faults;
      None when no frame has a native image. */
  function NativeTraceOf(mem: Memory, frames: Option<seq<NativeFrame>>, cache: Cache): (r: (Read<Option<seq<NativeStackFrame>>>, Cache))
    ensures frames.None? ==> r == (Fault, cache)
    ensures frames.Some? && ImagesReadable(mem, frames.value, |frames.value|) ==> r.0.Ok?
    ensures r.0.Fault? && frames.Some? ==> !ImagesReadable(mem, frames.value, |frames.value|)
    ensures r.0.Ok? ==>
      frames.Some? &&
      (r.0.value.Some? <==> NativeFramesOf(frames.value) != []) &&
      (r.0.value.Some? ==> r.0.value.value == NativeFramesOf(frames.value))
  {
    if frames.None? then (Fault, cache)
    else
      var (lines, cache1) := NativeScan(mem, frames.value, |frames.value|, cache);
      assert frames.value[..|frames.value|] == frames.value;
      if lines.Fault? then (Fault, cache1)
      else if lines.value == [] then (Ok(None), cache1)
      else (Ok(Some(lines.value)), cache1)
  }

  /** BuildNativeStackTrace */
  method BuildNativeStackTrace(mem: Memory, images: ImageCache, frames: Option<seq<NativeFrame>>)
    returns (r: Read<Option<seq<NativeStackFrame>>>)
    modifies images
    ensures (r, images.entries) == NativeTraceOf(mem, frames, old(images.entries))
  {
    if frames.None? {
      return Fault;
    }
    var fs := frames.value;
    var lines: seq<NativeStackFrame> := [];
    for i := 0 to |fs|
      invariant NativeScan(mem, fs, i, old(images.entries)) == (Ok(lines), images.entries)
    {
      var f := fs[i];
      if f.hasNativeImage {
        var seen := images.Contains(f.imageBase);
        if !seen {
          var info := ReadImage(ImageBytes(mem, f.imageBase), f.imageBase);
          if info.Fault? {
            assert NativeScan(mem, fs, i + 1, old(images.entries)) == (Fault, images.entries);
            NativeScanFaultStays(mem, fs, i + 1, |fs|, old(images.entries));
            assert fs[..|fs|] == fs;
            return Fault;
          }
          images.Add(f.imageBase, info.value);
        }
        lines := lines + [NativeStackFrame(f.ip, f.imageBase)];
      }
    }
    assert fs[..|fs|] == fs;
    r := if lines == [] then Ok(None) else Ok(Some(lines));
  }

  /** Once the scan faults, later frames change neither the outcome nor the cache. */
  lemma {:induction false} NativeScanFaultStays(mem: Memory, frames: seq<NativeFrame>, i: nat, n: nat, cache: Cache)
    requires i <= n <= |frames|
    requires NativeScan(mem, frames, i, cache).0.Fault?
    ensures NativeScan(mem, frames, n, cache) == NativeScan(mem, frames, i, cache)
    decreases n - i
  {
    if i < n {
      NativeScanFaultStays(mem, frames, i, n - 1, cache);
    }
  }

  // ---------------------------------------------------------------------------
  // The error-info tree (BuildErrorInfo, Build)

  /** The node for `e` without its inner errors, given its native trace outcome. */
  function NodeOf(e: Exc, native: Read<Option<seq<NativeStackFrame>>>): ErrorInfo {
    ErrorInfo(None, None, e.data, FormatTypeName(e.exceptionType, true), e.message,
              StackTraceOf(e.stackTrace), if native.Ok? then native.value else None, None)
  }

  /** BuildErrorInfo: the error info of `e` and the image cache after it. A failed
      native trace leaves only NativeStackTrace unset. An aggregate exception gets
      InnerErrors, one per inner exception in order; any other gets InnerError
      when it has an inner exception. */
  function ErrorInfoOf(mem: Memory, e: Exc, cache: Cache): (r: (ErrorInfo, Cache))
    decreases e, 1
  {
    var (native, cache1) := NativeTraceOf(mem, e.frames, cache);
    var node := NodeOf(e, native);
    match e.causes
    case Aggregate(inners) =>
      var (infos, cache2) := InnerInfosOf(mem, e, 0, cache1);
      (node.(innerErrors := Some(infos)), cache2)
    case Single(None) => (node, cache1)
    case Single(Some(inner)) =>
      var (info, cache2) := ErrorInfoOf(mem, inner, cache1);
      (node.(innerError := Some(info)), cache2)
  }

  /** The error infos of the inner exceptions of the aggregate `owner` from `i` on,
      built in order with the cache threaded through. */
  function InnerInfosOf(mem: Memory, owner: Exc, i: nat, cache: Cache): (r: (seq<ErrorInfo>, Cache))
    requires owner.causes.Aggregate? && i <= |owner.causes.inners|
    ensures |r.0| == |owner.causes.inners| - i
    decreases owner, 0, |owner.causes.inners| - i
  {
    if i == |owner.causes.inners| then ([], cache)
    else
      var (info, cache1) := ErrorInfoOf(mem, owner.causes.inners[i], cache);
      var (rest, cache2) := InnerInfosOf(mem, owner, i + 1, cache1);
      ([info] + rest, cache2)
  }

  /** The error-info tree has the shape of the exception tree: each node copies its
      exception's message and data and formats its type; InnerError and
      InnerErrors are never both set. */
  predicate Mirrors(info: ErrorInfo, e: Exc)
    decreases e, 1
  {
    info.message == e.message && info.data == e.data &&
    info.className == FormatTypeName(e.exceptionType, true) &&
    info.stackTrace == StackTraceOf(e.stackTrace) &&
    info.images.None? &&
    match e.causes
    case Aggregate(inners) =>
      info.innerError.None? && info.innerErrors.Some? &&
      |info.innerErrors.value| == |inners| && MirrorsFrom(info.innerErrors.value, e, 0)
    case Single(inner) =>
      info.innerErrors.None? && (info.innerError.Some? <==> inner.Some?) &&
      (inner.Some? ==> Mirrors(info.innerError.value, inner.value))
  }

  predicate MirrorsFrom(infos: seq<ErrorInfo>, owner: Exc, i: nat)
    requires owner.causes.Aggregate? && |infos| == |owner.causes.inners| && i <= |infos|
    decreases owner, 0, |infos| - i
  {
    i == |infos| || (Mirrors(infos[i], owner.causes.inners[i]) && MirrorsFrom(infos, owner, i + 1))
  }

  lemma {:induction false} ErrorInfoMirrors(mem: Memory, e: Exc, cache: Cache)
    ensures Mirrors(ErrorInfoOf(mem, e, cache).0, e)
    decreases e, 1
  {
    var (native, cache1) := NativeTraceOf(mem, e.frames, cache);
    match e.causes
    case Aggregate(inners) =>
      InnerInfosMirror(mem, e, 0, cache1, InnerInfosOf(mem, e, 0, cache1).0, 0);
    case Single(None) =>
    case Single(Some(inner)) =>
      ErrorInfoMirrors(mem, inner, cache1);
  }

  /** `infos` is the full list built from position 0; its part from `i` on is the
      list built from `i` with the cache reached there. */
  lemma {:induction false} InnerInfosMirror(mem: Memory, owner: Exc, i: nat, cache: Cache, infos: seq<ErrorInfo>, offset: nat)
    requires owner.causes.Aggregate? && i <= |owner.causes.inners|
    requires offset == i && |infos| == |owner.causes.inners|
    requires infos[i..] == InnerInfosOf(mem, owner, i, cache).0
    ensures MirrorsFrom(infos, owner, i)
    decreases owner, 0, |owner.causes.inners| - i
  {
    if i < |infos| {
      var (info, cache1) := ErrorInfoOf(mem, owner.causes.inners[i], cache);
      ErrorInfoMirrors(mem, owner.causes.inners[i], cache);
      assert infos[i] == info;
      assert infos[i + 1..] == infos[i..][1..];
      InnerInfosMirror(mem, owner, i + 1, cache1, infos, offset + 1);
    }
  }

  /** The cache holds each image base once, with what ReadImage returns for it. */
  predicate CacheValid(mem: Memory, cache: Cache) {
    (forall j, k :: 0 <= j < k < |cache| ==> cache[j].base != cache[k].base) &&
    (forall k :: 0 <= k < |cache| ==> EntryValid(mem, cache[k]))
  }

  /** The entry holds what reading the image at its base returns. */
  predicate EntryValid(mem: Memory, entry: ImageEntry) {
    ImageInfoOf(ImageBytes(mem, entry.base), entry.base) == Ok(entry.info)
  }

  /** Scanning frames only appends to a valid cache, and keeps it valid: each image
      is read at most once. */
  lemma {:induction false} NativeScanCache(mem: Memory, frames: seq<NativeFrame>, n: nat, cache: Cache)
    requires n <= |frames| && CacheValid(mem, cache)
    ensures CacheValid(mem, NativeScan(mem, frames, n, cache).1)
    ensures cache <= NativeScan(mem, frames, n, cache).1
    decreases n
  {
    if n > 0 {
      NativeScanCache(mem, frames, n - 1, cache);
      NativeScanStepCache(mem, frames, n, cache);
    }
  }

  /** One frame of the scan appends at most one entry, for a base not cached yet. */
  lemma NativeScanStepCache(mem: Memory, frames: seq<NativeFrame>, n: nat, cache: Cache)
    requires 0 < n <= |frames| && CacheValid(mem, NativeScan(mem, frames, n - 1, cache).1)
    ensures CacheValid(mem, NativeScan(mem, frames, n, cache).1)
    ensures NativeScan(mem, frames, n - 1, cache).1 <= NativeScan(mem, frames, n, cache).1
  {
    var (lines, cache1) := NativeScan(mem, frames, n - 1, cache);
    var f := frames[n - 1];
    NativeScanStep(mem, frames, n, cache, lines, cache1);
    if lines.Ok? && f.hasNativeImage && !Cached(cache1, f.imageBase) {
      var read := ImageInfoOf(ImageBytes(mem, f.imageBase), f.imageBase);
      if read.Ok? {
        CacheAppendValid(mem, cache1, ImageEntry(f.imageBase, read.value));
      }
    }
  }

  /** The cache after frame `n`: one entry more exactly when the frame has a native
      image whose base is not cached yet and reading it does not fault. */
  lemma NativeScanStep(mem: Memory, frames: seq<NativeFrame>, n: nat, cache: Cache,
                       lines: Read<seq<NativeStackFrame>>, cache1: Cache)
    requires 0 < n <= |frames| && (lines, cache1) == NativeScan(mem, frames, n - 1, cache)
    ensures var f := frames[n - 1];
      var read := ImageInfoOf(ImageBytes(mem, f.imageBase), f.imageBase);
      NativeScan(mem, frames, n, cache).1 ==
        if lines.Ok? && f.hasNativeImage && !Cached(cache1, f.imageBase) && read.Ok?
        then cache1 + [ImageEntry(f.imageBase, read.value)]
        else cache1
  {
  }

  /** An entry for a base not cached yet, holding what reading that image returns,
      keeps the cache valid. */
  lemma CacheAppendValid(mem: Memory, cache: Cache, entry: ImageEntry)
    requires CacheValid(mem, cache) && !Cached(cache, entry.base)
    requires EntryValid(mem, entry)
    ensures CacheValid(mem, cache + [entry])
  {
    var c := cache + [entry];
    forall j, k | 0 <= j < k < |c|
      ensures c[j].base != c[k].base
    {
      assert c[j] == cache[j];
      if k < |cache| {
        assert c[k] == cache[k];
      }
    }
    forall k | 0 <= k < |c|
      ensures EntryValid(mem, c[k])
    {
      if k < |cache| {
        assert c[k] == cache[k];
      }
    }
  }

  lemma NativeTraceCache(mem: Memory, frames: Option<seq<NativeFrame>>, cache: Cache)
    requires CacheValid(mem, cache)
    ensures CacheValid(mem, NativeTraceOf(mem, frames, cache).1)
    ensures cache <= NativeTraceOf(mem, frames, cache).1
  {
    if frames.Some? {
      NativeScanCache(mem, frames.value, |frames.value|, cache);
    }
  }

  /** With a valid cache, the scan faults exactly when the image of some frame
      among the first `n` does not read: a cached base always reads, so a faulting
      image is read afresh. */
  lemma {:induction false} NativeScanFaultsWhenUnreadable(mem: Memory, frames: seq<NativeFrame>, n: nat, cache: Cache)
    requires n <= |frames| && CacheValid(mem, cache)
    ensures NativeScan(mem, frames, n, cache).0.Fault? <==> !ImagesReadable(mem, frames, n)
    decreases n
  {
    if n > 0 {
      NativeScanFaultsWhenUnreadable(mem, frames, n - 1, cache);
      NativeScanCache(mem, frames, n - 1, cache);
      var (lines, cache1) := NativeScan(mem, frames, n - 1, cache);
      var f := frames[n - 1];
      if lines.Ok? && f.hasNativeImage && Cached(cache1, f.imageBase) {
        var k :| 0 <= k < |cache1| && cache1[k].base == f.imageBase;
        assert EntryValid(mem, cache1[k]);
      }
      if !ImagesReadable(mem, frames, n) && ImagesReadable(mem, frames, n - 1) {
        assert f.hasNativeImage && ImageInfoOf(ImageBytes(mem, f.imageBase), f.imageBase).Fault?;
      }
    }
  }

  /** The NativeStackTrace a node carries for the frames the runtime gives: the
      native frames, when there are frames, every image among them reads and some
      frame has one; otherwise none. */
  function ExpectedNativeTrace(mem: Memory, frames: Option<seq<NativeFrame>>): Option<seq<NativeStackFrame>> {
    if frames.Some? && ImagesReadable(mem, frames.value, |frames.value|) && NativeFramesOf(frames.value) != []
    then Some(NativeFramesOf(frames.value))
    else None
  }

  /** With a valid cache, the native trace faults exactly when there are no frames
      or some image does not read, and otherwise holds the expected frames. */
  lemma NativeTraceOfValid(mem: Memory, frames: Option<seq<NativeFrame>>, cache: Cache)
    requires CacheValid(mem, cache)
    ensures NativeTraceOf(mem, frames, cache).0.Fault? <==>
      frames.None? || !ImagesReadable(mem, frames.value, |frames.value|)
    ensures NativeTraceOf(mem, frames, cache).0.Ok? ==>
      NativeTraceOf(mem, frames, cache).0.value == ExpectedNativeTrace(mem, frames)
  {
    if frames.Some? {
      NativeScanFaultsWhenUnreadable(mem, frames.value, |frames.value|, cache);
      assert frames.value[..|frames.value|] == frames.value;
    }
  }

  /** Every node of the error-info tree carries the native trace its exception's
      frames call for: a failed native trace leaves only that field unset. */
  predicate NativeTracesMirror(mem: Memory, info: ErrorInfo, e: Exc)
    decreases e, 1
  {
    info.nativeStackTrace == ExpectedNativeTrace(mem, e.frames) &&
    match e.causes
    case Aggregate(inners) =>
      info.innerErrors.Some? && |info.innerErrors.value| == |inners| &&
      NativeTracesMirrorFrom(mem, info.innerErrors.value, e, 0)
    case Single(inner) =>
      inner.Some? ==> info.innerError.Some? && NativeTracesMirror(mem, info.innerError.value, inner.value)
  }

  predicate NativeTracesMirrorFrom(mem: Memory, infos: seq<ErrorInfo>, owner: Exc, i: nat)
    requires owner.causes.Aggregate? && |infos| == |owner.causes.inners| && i <= |infos|
    decreases owner, 0, |infos| - i
  {
    i == |infos| ||
    (NativeTracesMirror(mem, infos[i], owner.causes.inners[i]) && NativeTracesMirrorFrom(mem, infos, owner, i + 1))
  }

  /** From a valid cache, every node of the tree built carries its expected native
      trace. */
  lemma {:induction false} ErrorInfoNativeTraces(mem: Memory, e: Exc, cache: Cache)
    requires CacheValid(mem, cache)
    ensures NativeTracesMirror(mem, ErrorInfoOf(mem, e, cache).0, e)
    decreases e, 1
  {
    NativeTraceOfValid(mem, e.frames, cache);
    NativeTraceCache(mem, e.frames, cache);
    var (native, cache1) := NativeTraceOf(mem, e.frames, cache);
    match e.causes
    case Aggregate(inners) =>
      InnerInfosNativeTraces(mem, e, 0, cache1, InnerInfosOf(mem, e, 0, cache1).0, 0);
    case Single(None) =>
    case Single(Some(inner)) =>
      ErrorInfoNativeTraces(mem, inner, cache1);
  }

  lemma {:induction false} InnerInfosNativeTraces(mem: Memory, owner: Exc, i: nat, cache: Cache, infos: seq<ErrorInfo>, offset: nat)
    requires owner.causes.Aggregate? && i <= |owner.causes.inners| && CacheValid(mem, cache)
    requires offset == i && |infos| == |owner.causes.inners|
    requires infos[i..] == InnerInfosOf(mem, owner, i, cache).0
    ensures NativeTracesMirrorFrom(mem, infos, owner, i)
    decreases owner, 0, |owner.causes.inners| - i
  {
    if i < |infos| {
      var (info, cache1) := ErrorInfoOf(mem, owner.causes.inners[i], cache);
      ErrorInfoNativeTraces(mem, owner.causes.inners[i], cache);
      ErrorInfoCache(mem, owner.causes.inners[i], cache);
      assert infos[i] == info;
      assert infos[i + 1..] == infos[i..][1..];
      InnerInfosNativeTraces(mem, owner, i + 1, cache1, infos, offset + 1);
    }
  }

  /** Building the whole tree keeps the cache valid and only appends to it. */
  lemma {:induction false} ErrorInfoCache(mem: Memory, e: Exc, cache: Cache)
    requires CacheValid(mem, cache)
    ensures CacheValid(mem, ErrorInfoOf(mem, e, cache).1)
    ensures cache <= ErrorInfoOf(mem, e, cache).1
    decreases e, 1
  {
    NativeTraceCache(mem, e.frames, cache);
    var (native, cache1) := NativeTraceOf(mem, e.frames, cache);
    match e.causes
    case Aggregate(inners) =>
      InnerInfosCache(mem, e, 0, cache1);
    case Single(None) =>
    case Single(Some(inner)) =>
      ErrorInfoCache(mem, inner, cache1);
  }

  lemma {:induction false} InnerInfosCache(mem: Memory, owner: Exc, i: nat, cache: Cache)
    requires owner.causes.Aggregate? && i <= |owner.causes.inners| && CacheValid(mem, cache)
    ensures CacheValid(mem, InnerInfosOf(mem, owner, i, cache).1)
    ensures cache <= InnerInfosOf(mem, owner, i, cache).1
    decreases owner, 0, |owner.causes.inners| - i
  {
    if i < |owner.causes.inners| {
      ErrorInfoCache(mem, owner.causes.inners[i], cache);
      var (info, cache1) := ErrorInfoOf(mem, owner.causes.inners[i], cache);
      InnerInfosCache(mem, owner, i + 1, cache1);
    }
  }

  /** The image infos of the cache that are not null, in insertion order. */
  function PresentImages(cache: Cache): (r: seq<ImageInfo>)
    ensures |r| <= |cache|
    ensures forall k :: 0 <= k < |r| ==> exists j :: 0 <= j < |cache| && cache[j].info == Some(r[k])
    ensures forall j :: 0 <= j < |cache| && cache[j].info.Some? ==> cache[j].info.value in r
  {
    if cache == [] then []
    else
      var rest := PresentImages(cache[1..]);
      assert forall k :: 0 <= k < |rest| ==> exists j :: 0 <= j < |cache| && cache[j].info == Some(rest[k]) by {
        forall k | 0 <= k < |rest|
          ensures exists j :: 0 <= j < |cache| && cache[j].info == Some(rest[k])
        {
          var j :| 0 <= j < |cache[1..]| && cache[1..][j].info == Some(rest[k]);
          assert cache[j + 1].info == Some(rest[k]);
        }
      }
      assert forall j :: 1 <= j < |cache| && cache[j].info.Some? ==> cache[j].info.value in rest by {
        forall j | 1 <= j < |cache| && cache[j].info.Some?
          ensures cache[j].info.value in rest
        {
          assert cache[1..][j - 1] == cache[j];
        }
      }
      if cache[0].info.Some? then [cache[0].info.value] + rest else rest
  }

  /** The positions from `i` on of the cache entries whose info is present. */
  function SomeIndices(cache: Cache, i: nat): seq<nat>
    requires i <= |cache|
    decreases |cache| - i
  {
    if i == |cache| then []
    else if cache[i].info.Some? then [i] + SomeIndices(cache, i + 1)
    else SomeIndices(cache, i + 1)
  }

  /** The positions listed are increasing, from `i` on, and each holds an info. */
  lemma {:induction false} SomeIndicesSound(cache: Cache, i: nat)
    requires i <= |cache|
    ensures forall k :: 0 <= k < |SomeIndices(cache, i)| ==>
      i <= SomeIndices(cache, i)[k] < |cache| && cache[SomeIndices(cache, i)[k]].info.Some?
    ensures forall k, l :: 0 <= k < l < |SomeIndices(cache, i)| ==> SomeIndices(cache, i)[k] < SomeIndices(cache, i)[l]
    decreases |cache| - i
  {
    if i < |cache| {
      SomeIndicesSound(cache, i + 1);
      var tail := SomeIndices(cache, i + 1);
      if cache[i].info.Some? {
        var r := [i] + tail;
        assert SomeIndices(cache, i) == r;
        forall k | 0 <= k < |r|
          ensures i <= r[k] < |cache| && cache[r[k]].info.Some?
        {
          if k > 0 {
            assert r[k] == tail[k - 1];
          }
        }
        forall k, l | 0 <= k < l < |r|
          ensures r[k] < r[l]
        {
          assert r[l] == tail[l - 1];
          if k > 0 {
            assert r[k] == tail[k - 1];
          }
        }
      } else {
        assert SomeIndices(cache, i) == tail;
      }
    }
  }

  /** Every position from `i` on that holds an info is listed. */
  lemma {:induction false} SomeIndicesComplete(cache: Cache, i: nat)
    requires i <= |cache|
    ensures forall j :: i <= j < |cache| && cache[j].info.Some? ==> j in SomeIndices(cache, i)
    decreases |cache| - i
  {
    if i < |cache| {
      SomeIndicesComplete(cache, i + 1);
    }
  }

  /** The images listed are exactly the present infos of the cache, in cache order:
      the k-th is the info at the k-th position holding one. */
  lemma {:induction false} PresentImagesInOrder(cache: Cache, i: nat)
    requires i <= |cache|
    ensures var r := PresentImages(cache[i..]);
      var pos := SomeIndices(cache, i);
      |r| == |pos| && forall k :: 0 <= k < |r| ==> pos[k] < |cache| && cache[pos[k]].info == Some(r[k])
    decreases |cache| - i
  {
    if i < |cache| {
      PresentImagesInOrder(cache, i + 1);
      var rest, tail := PresentImages(cache[i + 1..]), SomeIndices(cache, i + 1);
      PresentImagesUnfold(cache, i);
      if cache[i].info.Some? {
        var r, pos := [cache[i].info.value] + rest, [i] + tail;
        assert SomeIndices(cache, i) == pos;
        forall k | 0 <= k < |r|
          ensures pos[k] < |cache| && cache[pos[k]].info == Some(r[k])
        {
          if k > 0 {
            assert r[k] == rest[k - 1] && pos[k] == tail[k - 1];
          }
        }
      } else {
        assert SomeIndices(cache, i) == tail;
      }
    }
  }

  lemma PresentImagesUnfold(cache: Cache, i: nat)
    requires i < |cache|
    ensures PresentImages(cache[i..]) ==
      (if cache[i].info.Some? then [cache[i].info.value] else []) + PresentImages(cache[i + 1..])
  {
    assert cache[i..][1..] == cache[i + 1..];
  }

  /** Build: the error info of the root, with Images set, to the non-null image
      infos, only when some native image was seen. */
  function ErrorReportOf(mem: Memory, e: Exc): ErrorInfo {
    var (info, cache) := ErrorInfoOf(mem, e, []);
    if |cache| > 0 then info.(images := Some(PresentImages(cache))) else info
  }

  /** At the root, Images holds the images read once each for the distinct bases
      the frames of the tree point into; every other field mirrors the exception. */
  lemma ErrorReportShape(mem: Memory, e: Exc)
    ensures var r := ErrorReportOf(mem, e);
      var cache := ErrorInfoOf(mem, e, []).1;
      Mirrors(r.(images := None), e) && NativeTracesMirror(mem, r, e) &&
      r.images == (if cache == [] then None else Some(PresentImages(cache))) &&
      CacheValid(mem, cache)
  {
    ErrorInfoMirrors(mem, e, []);
    ErrorInfoNativeTraces(mem, e, []);
    ErrorInfoCache(mem, e, []);
    var (info, cache) := ErrorInfoOf(mem, e, []);
    assert info.images.None?;
    assert ErrorReportOf(mem, e).(images := None) == info;
  }

  /** BuildErrorInfo */
  method BuildErrorInfo(mem: Memory, e: Exc, images: ImageCache) returns (r: ErrorInfo)
    modifies images
    ensures (r, images.entries) == ErrorInfoOf(mem, e, old(images.entries))
    decreases e, 1
  {
    var native := BuildNativeStackTrace(mem, images, e.frames);
    var stackTrace := BuildStackTrace(e.stackTrace);
    r := ErrorInfo(None, None, e.data, FormatTypeName(e.exceptionType, true), e.message,
                   stackTrace, if native.Ok? then native.value else None, None);
    assert r == NodeOf(e, native);
    match e.causes {
      case Aggregate(inners) =>
        var infos := BuildInnerErrors(mem, e, images);
        r := r.(innerErrors := Some(infos));
      case Single(None) =>
      case Single(Some(inner)) =>
        var info := BuildErrorInfo(mem, inner, images);
        r := r.(innerError := Some(info));
    }
  }

  /** One step of InnerInfosOf: the info of the inner exception at `i`, then the
      rest built with the cache that info left behind. */
  lemma InnerInfosStep(mem: Memory, owner: Exc, i: nat, cache: Cache, info: ErrorInfo, cache1: Cache)
    requires owner.causes.Aggregate? && i < |owner.causes.inners|
    requires (info, cache1) == ErrorInfoOf(mem, owner.causes.inners[i], cache)
    ensures InnerInfosOf(mem, owner, i, cache).0 == [info] + InnerInfosOf(mem, owner, i + 1, cache1).0
    ensures InnerInfosOf(mem, owner, i, cache).1 == InnerInfosOf(mem, owner, i + 1, cache1).1
  {
  }

  /** The indexed fill of InnerErrors for an aggregate exception. */
  method BuildInnerErrors(mem: Memory, e: Exc, images: ImageCache) returns (infos: seq<ErrorInfo>)
    requires e.causes.Aggregate?
    modifies images
    ensures (infos, images.entries) == InnerInfosOf(mem, e, 0, old(images.entries))
    decreases e, 0, 1
  {
    var inners := e.causes.inners;
    var innerErrors := new ErrorInfo[|inners|];
    ghost var target := InnerInfosOf(mem, e, 0, images.entries);
    assert innerErrors[..0] == [];
    for index := 0 to |inners|
      invariant target.0 == innerErrors[..index] + InnerInfosOf(mem, e, index, images.entries).0
      invariant target.1 == InnerInfosOf(mem, e, index, images.entries).1
    {
      BuildInnerError(mem, e, index, images, innerErrors, target);
    }
    assert innerErrors[..|inners|] == innerErrors[..];
    assert InnerInfosOf(mem, e, |inners|, images.entries) == ([], images.entries);
    infos := innerErrors[..];
    assert target.0 == infos + [];
    assert infos + [] == infos;
  }

  /** InnerErrors[index]: the info of the inner exception at `index`, built with the
      cache the earlier ones left behind. */
  method BuildInnerError(mem: Memory, e: Exc, index: nat, images: ImageCache, innerErrors: array<ErrorInfo>,
                         ghost target: (seq<ErrorInfo>, Cache))
    requires e.causes.Aggregate? && index < |e.causes.inners| == innerErrors.Length
    requires target.0 == innerErrors[..index] + InnerInfosOf(mem, e, index, images.entries).0
    requires target.1 == InnerInfosOf(mem, e, index, images.entries).1
    modifies images, innerErrors
    ensures innerErrors[index + 1..] == old(innerErrors[index + 1..])
    ensures target.0 == innerErrors[..index + 1] + InnerInfosOf(mem, e, index + 1, images.entries).0
    ensures target.1 == InnerInfosOf(mem, e, index + 1, images.entries).1
    decreases e, 0, 0
  {
    ghost var cache := images.entries;
    ghost var built := innerErrors[..index];
    var info := BuildErrorInfo(mem, e.causes.inners[index], images);
    InnerInfosStep(mem, e, index, cache, info, images.entries);
    ghost var rest := InnerInfosOf(mem, e, index + 1, images.entries).0;
    innerErrors[index] := info;
    assert innerErrors[..index + 1] == built + [info];
    AppendAssoc(built, info, rest);
  }

  lemma AppendAssoc(built: seq<ErrorInfo>, info: ErrorInfo, rest: seq<ErrorInfo>)
    ensures built + ([info] + rest) == (built + [info]) + rest
  {
  }

  /** Build */
  method Build(mem: Memory, e: Exc) returns (r: ErrorInfo)
    ensures r == ErrorReportOf(mem, e)
  {
    var images := new ImageCache();
    r := BuildErrorInfo(mem, e, images);
    if |images.entries| > 0 {
      var present: seq<ImageInfo> := [];
      var k := |images.entries|;
      while k > 0
        invariant 0 <= k <= |images.entries|
        invariant present == PresentImages(images.entries[k..])
      {
        k := k - 1;
        assert images.entries[k..][1..] == images.entries[k + 1..];
        if images.entries[k].info.Some? {
          present := [images.entries[k].info.value] + present;
        }
      }
      r := r.(images := Some(present));
    }
  }
}
