/**
 * `formatText(s, ...argv)`: a first pass that replaces every `${path}` of the
 * format string by the value the path reaches in the single object argument,
 * followed by `sprintf`.
 *
 * A path is an identifier followed by `.name` and `[digits]` accessors,
 * applied left to right.  `sprintf` is a parameter of the model.
 */
module FormatText {
  import opened Wrappers
  import opened JsValue

  const ParseErrorPrefix := "[formatText] failed to parse named argument key: "

  // ---------------------------------------------------------------------------
  // The three anchored regular expressions of the path walk

  /** `[a-z_]` under the `i` flag: the first character of a key. */
  predicate IsIdStart(c: char)
  {
    ('a' <= c <= 'z') || ('A' <= c <= 'Z') || c == '_'
  }

  /** `\d` */
  predicate IsDigit(c: char)
  {
    '0' <= c <= '9'
  }

  /** `[a-z_\d]` under the `i` flag: the later characters of a key. */
  predicate IsIdChar(c: char)
  {
    IsIdStart(c) || IsDigit(c)
  }

  /** Where the longest run of key characters starting at `i` ends (a greedy `*`). */
  function IdEnd(t: string, i: nat): (r: nat)
    requires i <= |t|
    ensures i <= r <= |t|
    ensures forall j | i <= j < r :: IsIdChar(t[j])
    ensures r == |t| || !IsIdChar(t[r])
    decreases |t| - i
  {
    if i < |t| && IsIdChar(t[i]) then IdEnd(t, i + 1) else i
  }

  /** Where the longest run of digits starting at `i` ends. */
  function DigitsEnd(t: string, i: nat): (r: nat)
    requires i <= |t|
    ensures i <= r <= |t|
    ensures forall j | i <= j < r :: IsDigit(t[j])
    ensures r == |t| || !IsDigit(t[r])
    decreases |t| - i
  {
    if i < |t| && IsDigit(t[i]) then DigitsEnd(t, i + 1) else i
  }

  /** `KEY = /^([a-z_][a-z_\d]*)/i`: the length of the key at the start of `t`. */
  function KeyMatch(t: string): (r: Option<nat>)
    ensures r.Some? <==> |t| > 0 && IsIdStart(t[0])
    ensures r.Some? ==> 0 < r.value <= |t| && (forall j | 0 <= j < r.value :: IsIdChar(t[j]))
                        && (r.value == |t| || !IsIdChar(t[r.value]))
  {
    if |t| > 0 && IsIdStart(t[0]) then Some(IdEnd(t, 1)) else None
  }

  /** `KEY_ACCESS = /^\.([a-z_][a-z_\d]*)/i`: the key and the length of the match. */
  function KeyAccess(t: string): (r: Option<(string, nat)>)
    ensures r.Some? <==> |t| > 1 && t[0] == '.' && IsIdStart(t[1])
    ensures r.Some? ==> 1 < r.value.1 <= |t| && r.value.0 == t[1..r.value.1]
                        && (r.value.1 == |t| || !IsIdChar(t[r.value.1]))
  {
    if |t| > 1 && t[0] == '.' && IsIdStart(t[1]) then
      var e := IdEnd(t, 2);
      Some((t[1..e], e))
    else None
  }

  /** `INDEX_ACCESS = /^\[(\d+)\]/`: the digits and the length of the match. */
  function IndexAccess(t: string): (r: Option<(string, nat)>)
    ensures r.Some? ==> 2 < r.value.1 <= |t| && t[0] == '[' && t[r.value.1 - 1] == ']'
                        && r.value.0 == t[1..r.value.1 - 1]
                        && forall j | 0 <= j < |r.value.0| :: IsDigit(r.value.0[j])
  {
    if |t| > 1 && t[0] == '[' && IsDigit(t[1]) then
      var e := DigitsEnd(t, 2);
      if e < |t| && t[e] == ']' then Some((t[1..e], e + 1)) else None
    else None
  }

  // ---------------------------------------------------------------------------
  // Interpolating one `${...}` replacement

  /**
   * The walk of the `while` loop: while text is left and the value is not
   * null or undefined, apply the leading `.key` or `[n]` accessor; stop at
   * anything else.  Returns the last value and the text left over.
   */
  function Walk(value: Value, left: string): (Value, string)
    decreases |left|
  {
    if left == [] || IsNullish(value) then (value, left)
    else
      match KeyAccess(left)
      case Some((name, n)) => Walk(GetProp(value, name).value, left[n..])
      case None =>
        match IndexAccess(left)
        case Some((digits, n)) => Walk(GetProp(value, digits).value, left[n..])
        case None => (value, left)
  }

  /** What the `replace` callback returns for `replacement`, or what it throws. */
  function InterpolateSpec(replacement: string, spec: Value): Result<Value, Exception>
  {
    match KeyMatch(replacement)
    case None =>
      if replacement == [] then Success(Undefined)
      else Failure(SyntaxError(ParseErrorPrefix + replacement))
    case Some(n) =>
      var first :- GetProp(spec, replacement[..n]);
      var (value, left) := Walk(first, replacement[n..]);
      if left != [] then Failure(SyntaxError(ParseErrorPrefix + replacement)) else Success(value)
  }

  /** The `replace` callback, with its walk as a loop over `interpolationLeft`. */
  method Interpolate(replacement: string, spec: Value) returns (r: Result<Value, Exception>)
    ensures r == InterpolateSpec(replacement, spec)
  {
    var left := replacement;
    var value := Undefined;
    var curMatch := KeyMatch(left);
    if curMatch.Some? {
      var got := GetProp(spec, left[..curMatch.value]);
      if got.Failure? {
        return Failure(got.error);
      }
      value := got.value;
      left := left[curMatch.value..];
      ghost var target := Walk(value, left);
      while left != [] && !IsNullish(value)
        invariant Walk(value, left) == target
        decreases |left|
      {
        var keyAccess := KeyAccess(left);
        if keyAccess.Some? {
          value := GetProp(value, keyAccess.value.0).value;
          left := left[keyAccess.value.1..];
        } else {
          var indexAccess := IndexAccess(left);
          if indexAccess.Some? {
            value := GetProp(value, indexAccess.value.0).value;
            left := left[indexAccess.value.1..];
          } else {
            break;
          }
        }
      }
    }
    if left != [] {
      return Failure(SyntaxError(ParseErrorPrefix + replacement));
    }
    return Success(value);
  }

  // ---------------------------------------------------------------------------
  // The first pass: `s.replace(/\${([^)]+?)}/g, callback)`

  /** Where the lazy `[^)]+?` group started at `q` is closed by a `}`, if anywhere. */
  function CloseAt(s: string, q: nat): (r: Option<nat>)
    requires q <= |s|
    ensures r.Some? ==> q <= r.value < |s| && s[r.value] == '}'
                        && forall j | q <= j < r.value :: s[j] != ')' && s[j] != '}'
    ensures r.None? ==> forall j | q <= j < |s| && s[j] == '}' :: exists k | q <= k < j :: s[k] == ')'
    decreases |s| - q
  {
    if q == |s| then None
    else if s[q] == '}' then Some(q)
    else if s[q] == ')' then None
    else CloseAt(s, q + 1)
  }

  /**
   * The index of the closing `}` when a template starts at the head of `s`:
   * `${`, at least one character, none of them `)`, up to the first `}`
   * that ends a non-empty group.
   */
  function TemplateEnd(s: string): (r: Option<nat>)
    ensures r.Some? ==> 3 <= r.value < |s| && s[..2] == "${" && s[r.value] == '}'
                        && (forall j | 2 <= j < r.value :: s[j] != ')')
                        && forall j | 3 <= j < r.value :: s[j] != '}'
  {
    if |s| >= 3 && s[0] == '$' && s[1] == '{' && s[2] != ')' then CloseAt(s, 3) else None
  }

  /**
   * The first pass over `s`: each template, found from the left, is replaced
   * by `String(value)` of its interpolation; the first callback that throws
   * ends the `replace`.
   */
  function Expand(s: string, spec: Value): Result<string, Exception>
    decreases |s|
  {
    if s == [] then Success([])
    else
      match TemplateEnd(s)
      case Some(q) =>
        var value :- InterpolateSpec(s[2..q], spec);
        var rest :- Expand(s[q + 1..], spec);
        Success(ToJsString(value) + rest)
      case None =>
        var rest :- Expand(s[1..], spec);
        Success([s[0]] + rest)
  }

  /** `s && argv.length === 1 && typeof argv[0] === 'object'` */
  predicate FirstPassRuns(s: Value, argv: seq<Value>)
  {
    Truthy(s) && |argv| == 1 && TypeofObject(argv[0])
  }

  /**
   * `formatText(s, ...argv)`.  A truthy `s` that is not a string has no
   * `replace` method, which throws the engine's TypeError.
   */
  function Format(s: Value, argv: seq<Value>, sprintf: (Value, seq<Value>) -> Result<string, Exception>): (r: Result<string, Exception>)
    ensures !FirstPassRuns(s, argv) ==> r == sprintf(s, argv)
  {
    if FirstPassRuns(s, argv) then
      if !s.Str? then Failure(EngineTypeError)
      else
        var expanded :- Expand(s.s, argv[0]);
        sprintf(Str(expanded), argv)
    else sprintf(s, argv)
  }

  // ---------------------------------------------------------------------------
  // Paths: what a template names

  datatype Accessor = Dot(name: string) | Index(digits: string)

  predicate IsIdentifier(name: string)
  {
    |name| > 0 && IsIdStart(name[0]) && forall j | 0 <= j < |name| :: IsIdChar(name[j])
  }

  predicate IsDigits(d: string)
  {
    |d| > 0 && forall j | 0 <= j < |d| :: IsDigit(d[j])
  }

  predicate WellFormed(accs: seq<Accessor>)
  {
    forall i | 0 <= i < |accs| ::
      match accs[i]
      case Dot(name) => IsIdentifier(name)
      case Index(digits) => IsDigits(digits)
  }

  function AccessorText(a: Accessor): string
  {
    match a
    case Dot(name) => "." + name
    case Index(digits) => "[" + digits + "]"
  }

  /** The accessors written out one after the other. */
  function PathText(accs: seq<Accessor>): (t: string)
    ensures accs != [] ==> |t| > 0 && (t[0] == '.' || t[0] == '[')
    ensures WellFormed(accs) ==> forall j | 0 <= j < |t| :: t[j] != ')' && t[j] != '}'
  {
    if accs == [] then [] else AccessorText(accs[0]) + PathText(accs[1..])
  }

  /** The value the accessors reach from `value`, or None when a null or undefined is met before the end. */
  function EvalPath(value: Value, accs: seq<Accessor>): Option<Value>
    decreases |accs|
  {
    if accs == [] then Some(value)
    else if IsNullish(value) then None
    else
      var key := match accs[0] case Dot(name) => name case Index(digits) => digits;
      EvalPath(GetProp(value, key).value, accs[1..])
  }

  // ---------------------------------------------------------------------------
  // Properties

  /** What may follow an accessor in a path: nothing, or the next accessor. */
  predicate PathTail(tail: string)
  {
    tail == [] || tail[0] == '.' || tail[0] == '['
  }

  /** A run of key characters ends where a path's next accessor begins. */
  lemma IdRunEnds(t: string, i: nat, name: string, tail: string)
    requires t == name + tail && i <= |name| && PathTail(tail)
    requires forall j | i <= j < |name| :: IsIdChar(name[j])
    ensures IdEnd(t, i) == |name|
  {
    assert forall j | 0 <= j < |name| :: t[j] == name[j];
    assert tail != [] ==> t[|name|] == tail[0];
  }

  /** `KEY_ACCESS` reads back a written `.name`. */
  lemma DotAccess(name: string, tail: string)
    requires IsIdentifier(name) && PathTail(tail)
    ensures KeyAccess("." + name + tail) == Some((name, |name| + 1))
  {
    var t := "." + name + tail;
    assert t == "." + (name + tail);
    assert t[1] == name[0];
    IdRunEnds(t, 2, "." + name, tail);
    assert t[1..|name| + 1] == name;
  }

  /** `INDEX_ACCESS` reads back a written `[digits]`, which `KEY_ACCESS` does not match. */
  lemma IndexAccessText(digits: string, tail: string)
    requires IsDigits(digits)
    ensures KeyAccess("[" + digits + "]" + tail).None?
    ensures IndexAccess("[" + digits + "]" + tail) == Some((digits, |digits| + 2))
  {
    var t := "[" + digits + "]" + tail;
    var e := DigitsEnd(t, 2);
    assert forall j | 1 <= j <= |digits| :: t[j] == digits[j - 1];
    assert t[|digits| + 1] == ']';
    assert t[1..e] == digits;
  }

  /** The walk parses a written-out path back into its accessors and applies them. */
  lemma {:induction false} WalkPath(value: Value, accs: seq<Accessor>)
    requires WellFormed(accs)
    ensures var (v, left) := Walk(value, PathText(accs));
            && (left == [] <==> EvalPath(value, accs).Some?)
            && (left == [] ==> v == EvalPath(value, accs).value)
    decreases |accs|
  {
    if accs != [] && !IsNullish(value) {
      var tail := PathText(accs[1..]);
      assert WellFormed(accs[1..]) by {
        forall i | 0 <= i < |accs[1..]| ensures accs[1..][i] == accs[i + 1] { }
      }
      match accs[0]
      case Dot(name) =>
        assert IsIdentifier(name);
        DotAccess(name, tail);
        assert ("." + name + tail)[|name| + 1..] == tail;
        WalkPath(GetProp(value, name).value, accs[1..]);
      case Index(digits) =>
        assert IsDigits(digits);
        IndexAccessText(digits, tail);
        assert ("[" + digits + "]" + tail)[|digits| + 2..] == tail;
        WalkPath(GetProp(value, digits).value, accs[1..]);
    }
  }

  /**
   * A replacement written as a key followed by accessors interpolates to the
   * value the path reaches in the argument, and fails to parse when the walk
   * meets null or undefined before its end.
   */
  lemma InterpolatePath(name: string, accs: seq<Accessor>, spec: Value)
    requires IsIdentifier(name) && WellFormed(accs) && !IsNullish(spec)
    ensures var r := InterpolateSpec(name + PathText(accs), spec);
            match EvalPath(GetProp(spec, name).value, accs)
            case Some(v) => r == Success(v)
            case None => r == Failure(SyntaxError(ParseErrorPrefix + (name + PathText(accs))))
  {
    var t := name + PathText(accs);
    IdRunEnds(t, 1, name, PathText(accs));
    assert KeyMatch(t) == Some(|name|);
    assert t[..|name|] == name;
    assert t[|name|..] == PathText(accs);
    WalkPath(GetProp(spec, name).value, accs);
  }

  /** A replacement that does not start with a key is a syntax error naming it. */
  lemma NoKeyThrows(replacement: string, spec: Value)
    requires replacement != [] && !IsIdStart(replacement[0])
    ensures InterpolateSpec(replacement, spec) == Failure(SyntaxError(ParseErrorPrefix + replacement))
  {
  }

  /** With text left after the key, a null or undefined value is a syntax error naming the replacement. */
  lemma NullishWithTextLeftThrows(replacement: string, spec: Value, n: nat)
    requires KeyMatch(replacement) == Some(n) && n < |replacement| && !IsNullish(spec)
    requires IsNullish(GetProp(spec, replacement[..n]).value)
    ensures InterpolateSpec(replacement, spec) == Failure(SyntaxError(ParseErrorPrefix + replacement))
  {
  }

  /** A null argument makes every key lookup throw the engine's TypeError. */
  lemma NullArgumentThrows(replacement: string)
    requires replacement != [] && IsIdStart(replacement[0])
    ensures InterpolateSpec(replacement, Null) == Failure(EngineTypeError)
  {
  }

  /** The `${` opening a well-formed template is closed by its own `}`. */
  lemma {:induction false} CloseAtPath(s: string, q: nat, e: nat)
    requires q <= e < |s| && s[e] == '}'
    requires forall j | q <= j < e :: s[j] != ')' && s[j] != '}'
    ensures CloseAt(s, q) == Some(e)
    decreases e - q
  {
    if q < e {
      CloseAtPath(s, q + 1, e);
    }
  }

  /** Text with no `$` passes through the first pass unchanged. */
  lemma {:induction false} PlainText(a: string, b: string, spec: Value)
    requires forall j | 0 <= j < |a| :: a[j] != '$'
    ensures Expand(a + b, spec).Success? <==> Expand(b, spec).Success?
    ensures Expand(a + b, spec).Success? ==> Expand(a + b, spec).value == a + Expand(b, spec).value
    ensures Expand(a + b, spec).Failure? ==> Expand(a + b, spec) == Expand(b, spec)
    decreases |a|
  {
    if a == [] {
      assert a + b == b;
    } else {
      var s := a + b;
      assert s[0] == a[0];
      assert TemplateEnd(s).None?;
      assert s[1..] == a[1..] + b;
      PlainText(a[1..], b, spec);
      var rest := Expand(s[1..], spec);
      assert Expand(s, spec) == if rest.Success? then Success([s[0]] + rest.value) else Failure(rest.error);
      if rest.Success? {
        assert [a[0]] + (a[1..] + Expand(b, spec).value) == a + Expand(b, spec).value;
      }
    }
  }

  /** A template written as `${path}` is replaced by `String` of the value its path reaches. */
  lemma TemplateText(name: string, accs: seq<Accessor>, b: string, spec: Value)
    requires IsIdentifier(name) && WellFormed(accs) && !IsNullish(spec)
    requires EvalPath(GetProp(spec, name).value, accs).Some?
    ensures var v := EvalPath(GetProp(spec, name).value, accs).value;
            var s := "${" + (name + PathText(accs)) + "}" + b;
            && (Expand(s, spec).Success? <==> Expand(b, spec).Success?)
            && (Expand(s, spec).Success? ==> Expand(s, spec).value == ToJsString(v) + Expand(b, spec).value)
  {
    var path := name + PathText(accs);
    var s := "${" + path + "}" + b;
    TemplateFound(path, b);
    assert s[2..|path| + 2] == path;
    assert s[|path| + 3..] == b;
    InterpolatePath(name, accs, spec);
  }

  /** `${path}` is one template when the path has no `)` and no `}`. */
  lemma TemplateFound(path: string, b: string)
    requires path != [] && forall j | 0 <= j < |path| :: path[j] != ')' && path[j] != '}'
    ensures TemplateEnd("${" + path + "}" + b) == Some(|path| + 2)
  {
    var s := "${" + path + "}" + b;
    var e := |path| + 2;
    forall j | 2 <= j < e ensures s[j] != ')' && s[j] != '}' {
      assert s[j] == path[j - 2];
    }
    CloseAtPath(s, 3, e);
  }

  /** Without one object argument, or with an empty format, `sprintf` gets `s` unchanged. */
  lemma FirstPassGuard(s: Value, argv: seq<Value>, sprintf: (Value, seq<Value>) -> Result<string, Exception>)
    ensures (s == Str([]) || |argv| != 1 || (|argv| == 1 && !TypeofObject(argv[0])))
            ==> Format(s, argv, sprintf) == sprintf(s, argv)
    ensures s.Str? && s.s != [] && |argv| == 1 && TypeofObject(argv[0]) ==>
              Format(s, argv, sprintf) == (var e :- Expand(s.s, argv[0]); sprintf(Str(e), argv))
  {
  }

  /** `formatText('This will give ${error.}', {error: [{}]})` is a syntax error naming `error.`. */
  lemma DanglingDotThrows()
    ensures InterpolateSpec("error.", Obj([("error", Arr([Obj([])]))]))
            == Failure(SyntaxError(ParseErrorPrefix + "error."))
  {
    var t := "error.";
    assert KeyMatch(t) == Some(5) by {
      assert !IsIdChar(t[5]);
    }
    assert t[..5] == "error";
    assert t[5..] == ".";
    assert KeyAccess(".").None?;
  }
}
