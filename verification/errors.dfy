/** The error taxonomy of the loader: line-parse failures, filesystem
    failures and environment-variable failures, unified in one `Error` sum
    with a path accessor, a not-found test, source chaining and display. */
module Errors {
  import opened Wrappers
  import opened Paths
  import opened Decimal

  /** The kind of an operating-system error (`io::ErrorKind`); only the
      kinds the loader distinguishes are named. */
  datatype ErrorKind = NotFound | PermissionDenied | OtherKind(name: string)

  /** An `io::Error`, opaque apart from its kind and its message text. */
  datatype OsError = OsError(kind: ErrorKind, message: string)

  /** An `env::VarError`, opaque apart from its kind and its message text. */
  datatype VarErrorKind = NotPresent | NotUnicode
  datatype VarError = VarError(kind: VarErrorKind, message: string)

  /** A malformed line: where it came from, its text, and the zero-based
      column of the first offending character. */
  datatype ParseError = ParseError(path: Option<Path>, line: string, col: nat)

  /** A filesystem failure, with the path it was attempted against when
      there is one. */
  datatype IoError = IoError(path: Option<Path>, source: OsError)

  /** Exactly one failure origin is active. */
  datatype Error = Parse(parse: ParseError) | Io(io: IoError) | EnvVar(envVar: VarError)

  /** What `source()` hands back: the wrapped OS error or variable error. */
  datatype Cause = OsCause(os: OsError) | VarCause(varError: VarError)

  // Construction

  /** `ParseError::from_parts`: every part is kept as given. */
  function ParseErrorFromParts(path: Option<Path>, line: string, col: nat): (r: ParseError)
    ensures r.path == path && r.line == line && r.col == col
  {
    ParseError(path, line, col)
  }

  /** `IoError::without_path`: for failures that concern no path. */
  function IoErrorWithoutPath(source: OsError): (r: IoError)
    ensures r.path.None? && r.source == source
  {
    IoError(None, source)
  }

  /** `IoError::from_parts`: path and cause are kept as given. */
  function IoErrorFromParts(path: Option<Path>, source: OsError): (r: IoError)
    ensures r.path == path && r.source == source
  {
    IoError(path, source)
  }

  /** `From<ParseError>`: the wrapped value keeps its path, has no cause and
      displays exactly as the parse error does. */
  function FromParse(p: ParseError): (r: Error)
    ensures ErrorPath(r) == p.path
    ensures ErrorSource(r).None? && !IsNotFound(r)
    ensures DisplayError(r) == DisplayParseError(p)
  {
    Parse(p)
  }

  /** `From<IoError>`: the wrapped value keeps its path, its cause is the OS
      error, and it displays exactly as the io error does. */
  function FromIo(io: IoError): (r: Error)
    ensures ErrorPath(r) == io.path
    ensures ErrorSource(r) == Some(OsCause(io.source))
    ensures IsNotFound(r) <==> io.source.kind == NotFound
    ensures DisplayError(r) == DisplayIoError(io)
  {
    Io(io)
  }

  /** `From<env::VarError>`: no path, the variable error is the cause and
      the whole display. */
  function FromVar(v: VarError): (r: Error)
    ensures ErrorPath(r).None?
    ensures ErrorSource(r) == Some(VarCause(v)) && !IsNotFound(r)
    ensures DisplayError(r) == v.message
  {
    EnvVar(v)
  }

  /** The conversions into `Error` lose nothing: each is injective, and no
      two origins ever produce the same `Error`. */
  lemma FromConversionsLossless(p1: ParseError, p2: ParseError, i1: IoError, i2: IoError,
                                v1: VarError, v2: VarError)
    ensures FromParse(p1) == FromParse(p2) <==> p1 == p2
    ensures FromIo(i1) == FromIo(i2) <==> i1 == i2
    ensures FromVar(v1) == FromVar(v2) <==> v1 == v2
    ensures FromParse(p1) != FromIo(i1) && FromIo(i1) != FromVar(v1) && FromVar(v1) != FromParse(p1)
  {
  }

  // Accessors

  /** `Error::path`: the path of the parse or io error; an environment
      variable error never has one. */
  function ErrorPath(e: Error): (r: Option<Path>)
    ensures e.EnvVar? ==> r.None?
    ensures e.Parse? ==> r == e.parse.path
    ensures e.Io? ==> r == e.io.path
  {
    match e
    case Parse(p) => p.path
    case Io(io) => io.path
    case EnvVar(_) => None
  }

  /** `Error::not_found`: only an io error whose cause has kind `NotFound`. */
  predicate IsNotFound(e: Error)
    ensures IsNotFound(e) <==> e.Io? && e.io.source.kind == NotFound
  {
    match e
    case Io(io) => io.source.kind == NotFound
    case _ => false
  }

  /** `source()` of a `ParseError`: a malformed line has no deeper cause. */
  function ParseErrorSource(p: ParseError): (r: Option<Cause>)
    ensures r.None?
  {
    None
  }

  /** `source()` of an `IoError`: always its OS error. */
  function IoErrorSource(io: IoError): (r: Option<Cause>)
    ensures r == Some(OsCause(io.source))
  {
    Some(OsCause(io.source))
  }

  /** `source()` of an `Error`: nothing for a parse error, the OS error of an
      io error, the variable error itself for an environment failure. */
  function ErrorSource(e: Error): (r: Option<Cause>)
    ensures r.None? <==> e.Parse?
    ensures e.Io? ==> r == Some(OsCause(e.io.source))
    ensures e.EnvVar? ==> r == Some(VarCause(e.envVar))
  {
    match e
    case Io(io) => Some(OsCause(io.source))
    case EnvVar(v) => Some(VarCause(v))
    case _ => None
  }

  /** Chaining skips the wrapper: the cause of a wrapped parse or io error is
      the cause that error reports itself. */
  lemma SourceSkipsWrapper(p: ParseError, io: IoError)
    ensures ErrorSource(FromParse(p)) == ParseErrorSource(p)
    ensures ErrorSource(FromIo(io)) == IoErrorSource(io)
  {
  }

  // Display

  /** `<path>: <detail>` when a path is present, else `<detail>`. */
  function WithPathPrefix(path: Option<Path>, detail: string): string
  {
    match path
    case Some(p) => Render(p) + ": " + detail
    case None => detail
  }

  /** `Display for ParseError`: the quoted line and the decimal column,
      after `<path>: ` when there is a path. */
  function DisplayParseError(e: ParseError): (s: string)
    ensures e.path.Some? ==>
      s == Render(e.path.value) + ": " + "'" + e.line + "', error at column " + NatToString(e.col)
    ensures e.path.None? ==> s == "'" + e.line + "', error at column " + NatToString(e.col)
  {
    WithPathPrefix(e.path, "'" + e.line + "', error at column " + NatToString(e.col))
  }

  /** `Display for IoError`: the OS error's message, after `<path>: ` when
      there is a path. */
  function DisplayIoError(e: IoError): (s: string)
    ensures e.path.Some? ==> s == Render(e.path.value) + ": " + e.source.message
    ensures e.path.None? ==> s == e.source.message
  {
    WithPathPrefix(e.path, e.source.message)
  }

  /** `Display for Error`: the display of whichever error is active. */
  function DisplayError(e: Error): (s: string)
    ensures e.Parse? ==> s == DisplayParseError(e.parse)
    ensures e.Io? ==> s == DisplayIoError(e.io)
    ensures e.EnvVar? ==> s == e.envVar.message
  {
    match e
    case Io(io) => DisplayIoError(io)
    case EnvVar(v) => v.message
    case Parse(p) => DisplayParseError(p)
  }

  /** The same error with any path dropped. */
  function StripPath(e: Error): Error
  {
    match e
    case Parse(p) => Parse(p.(path := None))
    case Io(io) => Io(io.(path := None))
    case EnvVar(_) => e
  }

  /** `path()` and the display agree: an error displays as its path, `": "`
      and the path-less display exactly when `path()` reports that path. */
  lemma DisplayLeadsWithPath(e: Error)
    ensures ErrorPath(StripPath(e)).None?
    ensures ErrorPath(e).Some? ==>
      DisplayError(e) == Render(ErrorPath(e).value) + ": " + DisplayError(StripPath(e))
    ensures ErrorPath(e).None? ==> DisplayError(e) == DisplayError(StripPath(e))
  {
  }

  /** The longest all-digit suffix of `s`. */
  function TrailingDigits(s: string): (t: string)
    ensures AllDigits(t) && |t| <= |s| && t == s[|s| - |t|..]
  {
    if |s| == 0 || !IsDigit(s[|s| - 1]) then ""
    else TrailingDigits(s[..|s| - 1]) + [s[|s| - 1]]
  }

  /** The column shown at the end of a parse error's display. */
  function DisplayedColumn(s: string): nat
  {
    ParseDecimal(TrailingDigits(s))
  }

  lemma {:induction false} TrailingDigitsAfterNonDigit(a: string, b: string)
    requires |a| > 0 && !IsDigit(a[|a| - 1])
    requires AllDigits(b)
    ensures TrailingDigits(a + b) == b
    decreases |b|
  {
    if |b| == 0 {
      assert a + b == a;
    } else {
      var b' := b[..|b| - 1];
      assert (a + b)[..|a + b| - 1] == a + b';
      TrailingDigitsAfterNonDigit(a, b');
    }
  }

  /** The parse error display loses no column: reading back the trailing
      number of the display gives the column it was built with. */
  lemma ParseErrorDisplayKeepsColumn(e: ParseError)
    ensures DisplayedColumn(DisplayParseError(e)) == e.col
  {
    var head := WithPathPrefix(e.path, "'" + e.line + "', error at column ");
    assert DisplayParseError(e) == head + NatToString(e.col);
    assert head[|head| - 1] == ' ';
    TrailingDigitsAfterNonDigit(head, NatToString(e.col));
    ParseNatToString(e.col);
  }

  // The scenarios pinned by the module's own tests.

  /** `path/to/.env`, the relative path the tests use. */
  const TestEnvPath := Path(false, ["path", "to", ".env"])

  lemma TestEnvPathRenders()
    ensures Render(TestEnvPath) == "path/to/.env"
  {
  }

  /** A wrapped `PermissionDenied` io error chains to that OS error, is not
      "not found", and displays as `<path>: <message>`. */
  lemma IoErrorScenarios(message: string)
    ensures var source := OsError(PermissionDenied, message);
      var err := FromIo(IoErrorFromParts(Some(TestEnvPath), source));
      && ErrorSource(err) == Some(OsCause(source))
      && !IsNotFound(err)
      && DisplayError(err) == "path/to/.env: " + message
    ensures IsNotFound(FromIo(IoErrorFromParts(Some(TestEnvPath), OsError(NotFound, message))))
  {
    TestEnvPathRenders();
  }

  /** A wrapped `NotPresent` variable error chains to itself and displays
      as the variable error does. */
  lemma VarErrorScenarios(message: string)
    ensures var v := VarError(NotPresent, message);
      ErrorSource(FromVar(v)) == Some(VarCause(v)) && DisplayError(FromVar(v)) == message
  {
  }

  lemma ParseScenarioText()
    ensures "path/to/.env" + ": " + "'" + "test line" + "', error at column " + "2"
      == "path/to/.env: 'test line', error at column 2"
  {
  }

  /** The parse error of the tests has no cause and displays exactly as
      `path/to/.env: 'test line', error at column 2`. */
  lemma ParseErrorScenarios()
    ensures var err := FromParse(ParseErrorFromParts(Some(TestEnvPath), "test line", 2));
      && ErrorSource(err).None?
      && DisplayError(err) == "path/to/.env: 'test line', error at column 2"
  {
    var p := ParseErrorFromParts(Some(TestEnvPath), "test line", 2);
    assert NatToString(2) == "2";
    TestEnvPathRenders();
    assert DisplayError(FromParse(p)) == "path/to/.env" + ": " + "'" + "test line" + "', error at column " + "2";
    ParseScenarioText();
  }
}
