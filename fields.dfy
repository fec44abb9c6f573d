/** State field names: the snake_case keyword arguments the builder accepts
    and the PascalCase keys it writes into the Amazon States Language document. */
module Fields {

  /** The fields the document builder itself uses (the SageMaker-specific
      entries of the enumeration are not part of this model). */
  datatype Field =
    | Comment | InputPath | OutputPath | Parameters | ResultPath | Next | Retry | Catch
    | Branches | End | Version | Result | Error | Cause | Seconds | Timestamp
    | SecondsPath | TimestampPath | Choices | Default | Iterator | ItemsPath
    | MaxConcurrency | Resource | TimeoutSeconds | TimeoutSecondsPath
    | HeartbeatSeconds | HeartbeatSecondsPath | ErrorEquals | IntervalSeconds
    | MaxAttempts | BackoffRate | NextStep

  /** The keyword-argument spelling of a field (`Field.X.value`). */
  function FieldValue(f: Field): string
  {
    match f
    case Comment => "comment"
    case InputPath => "input_path"
    case OutputPath => "output_path"
    case Parameters => "parameters"
    case ResultPath => "result_path"
    case Next => "next"
    case Retry => "retry"
    case Catch => "catch"
    case Branches => "branches"
    case End => "end"
    case Version => "version"
    case Result => "result"
    case Error => "error"
    case Cause => "cause"
    case Seconds => "seconds"
    case Timestamp => "timestamp"
    case SecondsPath => "seconds_path"
    case TimestampPath => "timestamp_path"
    case Choices => "choices"
    case Default => "default"
    case Iterator => "iterator"
    case ItemsPath => "items_path"
    case MaxConcurrency => "max_concurrency"
    case Resource => "resource"
    case TimeoutSeconds => "timeout_seconds"
    case TimeoutSecondsPath => "timeout_seconds_path"
    case HeartbeatSeconds => "heartbeat_seconds"
    case HeartbeatSecondsPath => "heartbeat_seconds_path"
    case ErrorEquals => "error_equals"
    case IntervalSeconds => "interval_seconds"
    case MaxAttempts => "max_attempts"
    case BackoffRate => "backoff_rate"
    case NextStep => "next_step"
  }

  predicate IsUpper(c: char) { 'A' <= c <= 'Z' }
  predicate IsLower(c: char) { 'a' <= c <= 'z' }
  predicate IsLetter(c: char) { IsUpper(c) || IsLower(c) }

  function ToUpper(c: char): char
  {
    if IsLower(c) then (c as int - 32) as char else c
  }

  function ToLower(c: char): char
  {
    if IsUpper(c) then (c as int + 32) as char else c
  }

  /** `str.title()` on ASCII text: a letter that follows a non-letter (or
      starts the text) is upper-cased, every other letter lower-cased. */
  function Title(s: string): string
  {
    TitleAfter(false, s)
  }

  /** `Title` of `s` when the character before it was a letter iff `afterLetter`. */
  function TitleAfter(afterLetter: bool, s: string): (r: string)
    ensures |r| == |s|
    decreases s
  {
    if s == [] then []
    else
      var c := if afterLetter then ToLower(s[0]) else ToUpper(s[0]);
      [c] + TitleAfter(IsLetter(s[0]), s[1..])
  }

  /** `text.split('_')`. */
  function SplitUnderscore(s: string): (parts: seq<string>)
    ensures |parts| >= 1
    ensures forall i :: 0 <= i < |parts| ==> '_' !in parts[i]
  {
    if s == [] then [[]]
    else
      var rest := SplitUnderscore(s[1..]);
      if s[0] == '_' then [[]] + rest
      else [[s[0]] + rest[0]] + rest[1..]
  }

  function Concat(parts: seq<string>): string
  {
    if parts == [] then [] else parts[0] + Concat(parts[1..])
  }

  function MapTitle(parts: seq<string>): (r: seq<string>)
    ensures |r| == |parts| && forall i :: 0 <= i < |parts| ==> r[i] == Title(parts[i])
  {
    if parts == [] then [] else [Title(parts[0])] + MapTitle(parts[1..])
  }

  /** `to_pascalcase(text)`: title-case each underscore-separated part and join them. */
  function ToPascalCase(text: string): string
  {
    Concat(MapTitle(SplitUnderscore(text)))
  }

  /** `s` with every underscore left out. */
  function DropUnderscores(s: string): string
  {
    if s == [] then [] else (if s[0] == '_' then [] else [s[0]]) + DropUnderscores(s[1..])
  }

  lemma TitleAfterUnderscore(afterLetter: bool, s: string)
    requires s != [] && s[0] == '_'
    ensures TitleAfter(afterLetter, s) == "_" + TitleAfter(false, s[1..])
  {
  }

  /** Splitting at underscores and title-casing each part is the same as
      title-casing the whole text (an underscore is not a letter, so it
      starts a new word anyway) and then dropping the underscores. */
  lemma {:induction false} PascalCaseIsTitleWithoutUnderscores(text: string)
    ensures ToPascalCase(text) == DropUnderscores(Title(text))
  {
    SplitTitle(text, false);
  }

  /** The general form of the lemma above: the first part is title-cased as a
      continuation of what came before it. */
  lemma {:induction false} SplitTitle(s: string, afterLetter: bool)
    ensures TitleAfter(afterLetter, SplitUnderscore(s)[0]) + Concat(MapTitle(SplitUnderscore(s)[1..]))
        == DropUnderscores(TitleAfter(afterLetter, s))
    decreases s
  {
    if s == [] {
    } else if s[0] == '_' {
      SplitTitleUnderscore(s, afterLetter);
    } else {
      SplitTitleLetter(s, afterLetter);
    }
  }

  lemma {:induction false} SplitTitleUnderscore(s: string, afterLetter: bool)
    requires s != [] && s[0] == '_'
    ensures TitleAfter(afterLetter, SplitUnderscore(s)[0]) + Concat(MapTitle(SplitUnderscore(s)[1..]))
        == DropUnderscores(TitleAfter(afterLetter, s))
    decreases s, 0
  {
    var rest := SplitUnderscore(s[1..]);
    var parts := SplitUnderscore(s);
    assert parts == [[]] + rest;
    assert parts[0] == [] && parts[1..] == rest;
    SplitTitle(s[1..], false);
    var m := MapTitle(rest);
    assert m == [Title(rest[0])] + MapTitle(rest[1..]);
    assert Concat(m) == Title(rest[0]) + Concat(MapTitle(rest[1..]));
    var t := TitleAfter(afterLetter, s);
    assert t == "_" + TitleAfter(false, s[1..]);
    assert t[0] == '_' && t[1..] == TitleAfter(false, s[1..]);
    assert DropUnderscores(t) == DropUnderscores(t[1..]);
  }

  lemma {:induction false} SplitTitleLetter(s: string, afterLetter: bool)
    requires s != [] && s[0] != '_'
    ensures TitleAfter(afterLetter, SplitUnderscore(s)[0]) + Concat(MapTitle(SplitUnderscore(s)[1..]))
        == DropUnderscores(TitleAfter(afterLetter, s))
    decreases s, 0
  {
    var rest := SplitUnderscore(s[1..]);
    var parts := SplitUnderscore(s);
    assert parts == [[s[0]] + rest[0]] + rest[1..];
    assert parts[0] == [s[0]] + rest[0] && parts[1..] == rest[1..];
    SplitTitle(s[1..], IsLetter(s[0]));
    var c := if afterLetter then ToLower(s[0]) else ToUpper(s[0]);
    assert c != '_';
    var p0 := [s[0]] + rest[0];
    assert p0[0] == s[0] && p0[1..] == rest[0];
    assert TitleAfter(afterLetter, p0) == [c] + TitleAfter(IsLetter(s[0]), rest[0]);
    var t := TitleAfter(afterLetter, s);
    assert t == [c] + TitleAfter(IsLetter(s[0]), s[1..]);
    assert t[0] == c && t[1..] == TitleAfter(IsLetter(s[0]), s[1..]);
    assert DropUnderscores(t) == [c] + DropUnderscores(t[1..]);
  }

  /** No document key produced from a keyword argument holds an underscore. */
  lemma {:induction false} PascalCaseHasNoUnderscore(text: string)
    ensures '_' !in ToPascalCase(text)
  {
    PascalCaseIsTitleWithoutUnderscores(text);
    NoUnderscoreAfterDrop(Title(text));
  }

  lemma {:induction false} NoUnderscoreAfterDrop(s: string)
    ensures '_' !in DropUnderscores(s)
  {
    if s != [] {
      NoUnderscoreAfterDrop(s[1..]);
    }
  }
  /** A single lower-case word only has its first letter upper-cased:
      `to_pascalcase("resource") == "Resource"`. */
  lemma {:induction false} PascalCaseOfLowerWord(s: string)
    requires s != [] && forall i :: 0 <= i < |s| ==> IsLower(s[i])
    ensures ToPascalCase(s) == [ToUpper(s[0])] + s[1..]
  {
    PascalCaseIsTitleWithoutUnderscores(s);
    LowerRunStaysLower(s[1..]);
    assert Title(s) == [ToUpper(s[0])] + TitleAfter(true, s[1..]);
    NoUnderscoreKept([ToUpper(s[0])] + s[1..]);
  }

  lemma {:induction false} LowerRunStaysLower(s: string)
    requires forall i :: 0 <= i < |s| ==> IsLower(s[i])
    ensures TitleAfter(true, s) == s
  {
    if s != [] {
      LowerRunStaysLower(s[1..]);
    }
  }

  lemma {:induction false} NoUnderscoreKept(s: string)
    requires forall i :: 0 <= i < |s| ==> s[i] != '_'
    ensures DropUnderscores(s) == s
  {
    if s != [] {
      NoUnderscoreKept(s[1..]);
    }
  }
  /** The document keys of the three fields every integration step sets. */
  lemma {:induction false} PascalOfResource(key: string)
    requires key == FieldValue(Resource)
    ensures ToPascalCase(key) == "Resource"
  {
    PascalCaseOfLowerWord(key);
    assert key[1..] == "esource";
  }

  lemma {:induction false} PascalOfType(key: string)
    requires key == "type"
    ensures ToPascalCase(key) == "Type"
  {
    PascalCaseOfLowerWord(key);
    assert key[1..] == "ype";
  }

  lemma {:induction false} PascalOfParameters(key: string)
    requires key == FieldValue(Parameters)
    ensures ToPascalCase(key) == "Parameters"
  {
    PascalCaseOfLowerWord(key);
    assert key[1..] == "arameters";
  }
}
