/**
 * Resolution of a route's stored method string to an HTTP method
 * (worker/src/main.rs, start of `check_route`).
 */
module WorkerMethod {

  datatype HttpMethod = GET | POST | PUT | DELETE | PATCH | HEAD | OPTIONS

  /** The upper-case name under which each method is recognised. */
  function Name(m: HttpMethod): string {
    match m
    case GET => "GET"
    case POST => "POST"
    case PUT => "PUT"
    case DELETE => "DELETE"
    case PATCH => "PATCH"
    case HEAD => "HEAD"
    case OPTIONS => "OPTIONS"
  }

  const MethodNames: set<string> := {"GET", "POST", "PUT", "DELETE", "PATCH", "HEAD", "OPTIONS"}

  /**
   * Upper-case mapping of one character, as Rust's `str::to_uppercase` does it
   * for the characters whose upper-case form can occur inside a method name:
   * the ASCII letters, dotless i, long s and the two "st" ligatures.
   * Every other character is kept. Its real upper-case form either contains
   * a non-ASCII character, or is "SS" (sharp s) or one of "FF", "FI", "FL",
   * "FFI", "FFL" (the f ligatures); no method name contains an F or a
   * doubled S, so in neither case can it be part of a method name.
   */
  function UpperChar(c: char): string {
    if 'a' <= c <= 'z' then [(c as int - 32) as char]
    else if c == '\U{0131}' then "I"
    else if c == '\U{017F}' then "S"
    else if c == '\U{FB05}' || c == '\U{FB06}' then "ST"
    else [c]
  }

  function ToUpper(s: string): string {
    if s == [] then [] else UpperChar(s[0]) + ToUpper(s[1..])
  }

  /** Unknown method names fall back to GET. */
  function ResolveMethod(stored: string): (m: HttpMethod)
    ensures ToUpper(stored) in MethodNames ==> Name(m) == ToUpper(stored)
    ensures ToUpper(stored) !in MethodNames ==> m == GET
  {
    match ToUpper(stored)
    case "GET" => GET
    case "POST" => POST
    case "PUT" => PUT
    case "DELETE" => DELETE
    case "PATCH" => PATCH
    case "HEAD" => HEAD
    case "OPTIONS" => OPTIONS
    case _ => GET
  }

  predicate IsAsciiUpper(s: string) {
    forall i | 0 <= i < |s| :: 'A' <= s[i] <= 'Z'
  }

  function AsciiLower(s: string): (r: string)
    ensures |r| == |s|
  {
    if s == [] then [] else [if 'A' <= s[0] <= 'Z' then (s[0] as int + 32) as char else s[0]] + AsciiLower(s[1..])
  }

  lemma {:induction false} UpperOfAsciiUpper(s: string)
    requires IsAsciiUpper(s)
    ensures ToUpper(s) == s
  {
    if s != [] {
      UpperOfAsciiUpper(s[1..]);
      assert s == [s[0]] + s[1..];
    }
  }

  lemma {:induction false} UpperOfAsciiLower(s: string)
    requires IsAsciiUpper(s)
    ensures ToUpper(AsciiLower(s)) == s
  {
    if s != [] {
      UpperOfAsciiLower(s[1..]);
      assert s == [s[0]] + s[1..];
    }
  }

  /** The seven names are told apart by their length and first letter. */
  lemma NameInjective(a: HttpMethod, b: HttpMethod)
    requires Name(a) == Name(b)
    ensures a == b
  {
    assert |Name(a)| == |Name(b)| && Name(a)[0] == Name(b)[0];
  }

  /** Both directions of the name round trip for one method. */
  lemma ResolveSpelling(m: HttpMethod, n: string)
    requires n == Name(m) && IsAsciiUpper(n)
    ensures ResolveMethod(n) == m
    ensures ResolveMethod(AsciiLower(n)) == m
  {
    assert Name(m) in MethodNames;
    UpperOfAsciiUpper(n);
    NameInjective(ResolveMethod(n), m);
    UpperOfAsciiLower(n);
    NameInjective(ResolveMethod(AsciiLower(n)), m);
  }

  /** Each method's own name, in upper or in lower case, resolves to that method. */
  lemma {:induction false} ResolveName(m: HttpMethod)
    ensures ResolveMethod(Name(m)) == m
    ensures ResolveMethod(AsciiLower(Name(m))) == m
  {
    match m
    case GET => ResolveSpelling(m, "GET");
    case POST => ResolveSpelling(m, "POST");
    case PUT => ResolveSpelling(m, "PUT");
    case DELETE => ResolveSpelling(m, "DELETE");
    case PATCH => ResolveSpelling(m, "PATCH");
    case HEAD => ResolveSpelling(m, "HEAD");
    case OPTIONS => ResolveSpelling(m, "OPTIONS");
  }

  /** Names outside the seven fall back to GET, and mixed case is accepted. */
  lemma ResolveExamples()
    ensures ResolveMethod("Patch") == PATCH
    ensures ResolveMethod("TRACE") == GET
    ensures ResolveMethod("") == GET
  {
    assert ToUpper("Patch") == "PATCH";
    UpperOfAsciiUpper("TRACE");
  }

  /** The non-ASCII case mapping is honoured: the "st" ligature upper-cases to "ST". */
  lemma LigatureSpelling()
    ensures ResolveMethod("po\U{FB06}") == POST
  {
    assert ToUpper("po\U{FB06}") == "POST";
  }
}
