/**
 * The event-name validator: a left-to-right scan that hands every expression
 * macro `{?...}` and expression macro function `{{?...}...}` to its parser and
 * fails on the first one that does not parse.
 */
module EventNameValidation {
  import opened Options

  type Pos = n: nat | n > 0 witness 1

  /** What a macro parser reports for the text at a position: its error, or the
      length of the macro it recognised. */
  datatype ParseResult = ParseFail(error: string) | ParseSuccess(length: Pos)

  /** A macro parser, given the whole value and the position to start at. */
  type MacroParser = (string, nat) -> ParseResult

  datatype MacroKind = ExpressionMacro | ExpressionMacroFunction

  /** `{?` starts at `p`. */
  predicate ExpressionMacroAt(value: string, p: nat)
  {
    p + 2 <= |value| && value[p] == '{' && value[p + 1] == '?'
  }

  /** `{{?` starts at `p`. */
  predicate ExpressionMacroFunctionAt(value: string, p: nat)
  {
    p + 3 <= |value| && value[p] == '{' && value[p + 1] == '{' && value[p + 2] == '?'
  }

  /** Whether the scan hands position `p` to a parser. */
  predicate MacroStart(value: string, p: nat)
  {
    (p < |value| && value[p] == '{' && ExpressionMacroAt(value, p)) || ExpressionMacroFunctionAt(value, p)
  }

  /** The parser a macro start is handed to: `{?` selects the expression macro
      parser, anything else the function parser. */
  function KindAt(value: string, p: nat): MacroKind
  {
    if ExpressionMacroAt(value, p) then ExpressionMacro else ExpressionMacroFunction
  }

  /** What the parser a macro start is handed to reports for it. */
  function ParseAt(value: string, p: nat, exprMacro: MacroParser, exprFuncMacro: MacroParser): ParseResult
  {
    if KindAt(value, p) == ExpressionMacro then exprMacro(value, p) else exprFuncMacro(value, p)
  }

  /** One step of the scan: a position passed over, or a macro of `length`
      characters starting at `pos`. */
  datatype Segment = Skipped(pos: nat) | Macro(pos: nat, length: Pos, kind: MacroKind)

  function SegmentEnd(s: Segment): nat
  {
    match s
    case Skipped(pos) => pos + 1
    case Macro(pos, length, _) => pos + length
  }

  /** The scan's verdict: the segments it went through, or the first parser error
      and the position it was raised at. */
  datatype ScanResult = Valid(segments: seq<Segment>) | Invalid(error: string, at: nat)

  /** The scan from position `p` to the end of `value`. */
  function ScanFrom(value: string, p: nat, exprMacro: MacroParser, exprFuncMacro: MacroParser): ScanResult
    decreases |value| - p
  {
    if p >= |value| then Valid([])
    else if MacroStart(value, p) then
      var kind := KindAt(value, p);
      match ParseAt(value, p, exprMacro, exprFuncMacro)
      case ParseFail(error) => Invalid(error, p)
      case ParseSuccess(length) =>
        match ScanFrom(value, p + length, exprMacro, exprFuncMacro)
        case Valid(segments) => Valid([Macro(p, length, kind)] + segments)
        case Invalid(error, at) => Invalid(error, at)
    else
      match ScanFrom(value, p + 1, exprMacro, exprFuncMacro)
      case Valid(segments) => Valid([Skipped(p)] + segments)
      case Invalid(error, at) => Invalid(error, at)
  }

  function Scan(value: string, exprMacro: MacroParser, exprFuncMacro: MacroParser): ScanResult
  {
    ScanFrom(value, 0, exprMacro, exprFuncMacro)
  }

  /** `{?` occurs in `value` at or after `p`. */
  predicate HasExpressionMacroFrom(value: string, p: nat)
  {
    exists i | p <= i < |value| :: ExpressionMacroAt(value, i)
  }

  /** A value without `{?` (and so without `{{?`) is valid whatever the parsers. */
  lemma {:induction false} NoMacroIsValid(value: string, p: nat, exprMacro: MacroParser, exprFuncMacro: MacroParser)
    requires !HasExpressionMacroFrom(value, p)
    ensures ScanFrom(value, p, exprMacro, exprFuncMacro).Valid?
    ensures forall i | 0 <= i < |ScanFrom(value, p, exprMacro, exprFuncMacro).segments| ::
              ScanFrom(value, p, exprMacro, exprFuncMacro).segments[i].Skipped?
    decreases |value| - p
  {
    if p < |value| {
      assert !ExpressionMacroAt(value, p);
      assert !ExpressionMacroFunctionAt(value, p) by {
        if ExpressionMacroFunctionAt(value, p) { assert ExpressionMacroAt(value, p + 1); }
      }
      NoMacroIsValid(value, p + 1, exprMacro, exprFuncMacro);
    }
  }

  /** The empty string is valid. */
  lemma EmptyIsValid(exprMacro: MacroParser, exprFuncMacro: MacroParser)
    ensures Scan("", exprMacro, exprFuncMacro) == Valid([])
  {
  }

  /** A successful scan tiles the value from `p`: the segments follow one another
      without gap or overlap, each macro is one the scan recognised and its parser
      accepted, each skipped position starts no macro, and the last segment reaches
      the end. */
  lemma {:induction false} ValidScanTiles(value: string, p: nat, exprMacro: MacroParser, exprFuncMacro: MacroParser)
    requires ScanFrom(value, p, exprMacro, exprFuncMacro).Valid?
    ensures var segs := ScanFrom(value, p, exprMacro, exprFuncMacro).segments;
            (segs == [] <==> p >= |value|)
            && (segs != [] ==> segs[0].pos == p && SegmentEnd(segs[|segs| - 1]) >= |value|)
            && (forall i | 0 <= i < |segs| - 1 :: segs[i + 1].pos == SegmentEnd(segs[i]))
            && (forall i | 0 <= i < |segs| :: p <= segs[i].pos < |value|)
            && (forall i | 0 <= i < |segs| && segs[i].Skipped? :: !MacroStart(value, segs[i].pos))
            && (forall i | 0 <= i < |segs| && segs[i].Macro? ::
                  MacroStart(value, segs[i].pos) && segs[i].kind == KindAt(value, segs[i].pos)
                  && ParseAt(value, segs[i].pos, exprMacro, exprFuncMacro) == ParseSuccess(segs[i].length))
    decreases |value| - p
  {
    if p < |value| {
      var rest :=
        if MacroStart(value, p) then
          match ParseAt(value, p, exprMacro, exprFuncMacro)
          case ParseFail(_) => p
          case ParseSuccess(length) => p + length
        else p + 1;
      ValidScanTiles(value, rest, exprMacro, exprFuncMacro);
    }
  }

  /** The scan goes from `p` to `q` without a failure: every position it passes
      either starts no macro, or starts one whose parser succeeded and was jumped
      over. */
  predicate Reaches(value: string, p: nat, q: nat, exprMacro: MacroParser, exprFuncMacro: MacroParser)
    decreases |value| - p
  {
    p == q ||
    (p < q && p < |value| &&
     if MacroStart(value, p) then
       match ParseAt(value, p, exprMacro, exprFuncMacro)
       case ParseFail(_) => false
       case ParseSuccess(length) => Reaches(value, p + length, q, exprMacro, exprFuncMacro)
     else Reaches(value, p + 1, q, exprMacro, exprFuncMacro))
  }

  /** A failed scan reports the first failure it reaches: it gets from `p` to a
      macro start `at` through successful parses only, and the parser there failed
      with the reported error. */
  lemma {:induction false} InvalidScanStopsAtFailure(value: string, p: nat, exprMacro: MacroParser, exprFuncMacro: MacroParser)
    requires ScanFrom(value, p, exprMacro, exprFuncMacro).Invalid?
    ensures var r := ScanFrom(value, p, exprMacro, exprFuncMacro);
            p <= r.at < |value| && MacroStart(value, r.at)
            && ParseAt(value, r.at, exprMacro, exprFuncMacro) == ParseFail(r.error)
            && Reaches(value, p, r.at, exprMacro, exprFuncMacro)
    decreases |value| - p
  {
    if MacroStart(value, p) && ParseAt(value, p, exprMacro, exprFuncMacro).ParseSuccess? {
      InvalidScanStopsAtFailure(value, p + ParseAt(value, p, exprMacro, exprFuncMacro).length, exprMacro, exprFuncMacro);
    } else if !MacroStart(value, p) {
      InvalidScanStopsAtFailure(value, p + 1, exprMacro, exprFuncMacro);
    }
  }

  /** The validator; `error` is the message of its last failure. */
  class EventNameValidator {
    var error: Option<string>

    constructor ()
      ensures error == None
    {
      error := None;
    }

    /** Whether `value` is a valid event name; on failure `error` holds the first
        parser error. */
    method Validate(value: string, exprMacro: MacroParser, exprFuncMacro: MacroParser) returns (ok: bool)
      modifies this
      ensures ok <==> Scan(value, exprMacro, exprFuncMacro).Valid?
      ensures !ok ==> error == Some(Scan(value, exprMacro, exprFuncMacro).error)
      ensures ok ==> error == old(error)
    {
      var p := 0;
      while p < |value|
        invariant Scan(value, exprMacro, exprFuncMacro).Valid? <==> ScanFrom(value, p, exprMacro, exprFuncMacro).Valid?
        invariant Scan(value, exprMacro, exprFuncMacro).Invalid? ==>
                    Scan(value, exprMacro, exprFuncMacro).error == ScanFrom(value, p, exprMacro, exprFuncMacro).error
        invariant error == old(error)
        decreases |value| - p
      {
        var startsMacro := (value[p] == '{' && ExpressionMacroAt(value, p)) || ExpressionMacroFunctionAt(value, p);
        assert startsMacro == MacroStart(value, p);
        if startsMacro {
          var result := if ExpressionMacroAt(value, p) then exprMacro(value, p) else exprFuncMacro(value, p);
          if result.ParseFail? {
            assert ScanFrom(value, p, exprMacro, exprFuncMacro) == Invalid(result.error, p);
            error := Some(result.error);
            return false;
          }
          p := p + result.length;
          continue;
        }
        p := p + 1;
      }
      return true;
    }
  }
}
