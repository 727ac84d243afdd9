/** The `spam` middleware (app/Http/Middleware/ProtectAgainstSpam.php): a
    link count and a banned-word list over the request's `content` and
    `name` fields. A missing field reads as the empty string. */
module ProtectAgainstSpam {
  import opened Wrappers
  import opened Text

  /** More than this many `http` in the lower-cased content is refused. */
  const MaxLinks: nat := 2

  const SpamPatterns: seq<string> := ["viagra", "cialis", "casino", "lottery", "prize"]

  datatype SpamResponse =
    | TooManyLinks  // "Too many links detected."
    | SpamDetected  // "Spam detected."
    | Forward       // `$next($request)`

  /** `substr_count`: occurrences found scanning left to right, each search
      resuming after the previous match. */
  function CountNonOverlapping(s: string, needle: string): nat
    requires needle != []
    decreases |s|
  {
    if |s| < |needle| then 0
    else if StartsWith(s, needle) then 1 + CountNonOverlapping(s[|needle|..], needle)
    else CountNonOverlapping(s[1..], needle)
  }

  /** Every position at which `needle` starts, overlapping or not. */
  function CountPositions(s: string, needle: string): nat
    decreases |s|
  {
    if |s| < |needle| || s == [] then 0
    else (if StartsWith(s, needle) then 1 else 0) + CountPositions(s[1..], needle)
  }

  /** The first banned pattern found, case-insensitively, in the content or
      the name, in the order of the list. */
  function FirstBanned(patterns: seq<string>, content: string, name: string): (found: Option<string>)
    ensures found.Some? ==> found.value in patterns
                            && (ContainsIgnoringCase(content, found.value) || ContainsIgnoringCase(name, found.value))
    ensures found.None? <==> forall p :: p in patterns ==> !ContainsIgnoringCase(content, p) && !ContainsIgnoringCase(name, p)
  {
    if patterns == [] then None
    else if ContainsIgnoringCase(content, patterns[0]) || ContainsIgnoringCase(name, patterns[0]) then Some(patterns[0])
    else FirstBanned(patterns[1..], content, name)
  }

  function Handle(content: Option<string>, name: Option<string>): SpamResponse {
    var c := content.GetOr("");
    var n := name.GetOr("");
    if CountNonOverlapping(LowerString(c), "http") > MaxLinks then TooManyLinks
    else if FirstBanned(SpamPatterns, c, n).Some? then SpamDetected
    else Forward
  }

  /** A text not starting with `needle` has the same positions as its tail. */
  lemma PositionsAfterMiss(t: string, needle: string)
    requires t != [] && !StartsWith(t, needle)
    ensures CountPositions(t, needle) == CountPositions(t[1..], needle)
  {
  }

  /** `http` cannot overlap itself, so counting non-overlapping matches
      counts every position where it starts. */
  lemma {:induction false} HttpCountIsPositions(s: string)
    ensures CountNonOverlapping(s, "http") == CountPositions(s, "http")
    decreases |s|
  {
    if |s| >= 4 {
      if StartsWith(s, "http") {
        assert s[..4] == "http";
        assert s[1] == 't' && s[2] == 't' && s[3] == 'p';
        assert s[1..][1..] == s[2..] && s[2..][1..] == s[3..] && s[3..][1..] == s[4..];
        PositionsAfterMiss(s[1..], "http");
        PositionsAfterMiss(s[2..], "http");
        PositionsAfterMiss(s[3..], "http");
        HttpCountIsPositions(s[4..]);
      } else {
        HttpCountIsPositions(s[1..]);
      }
    }
  }

  /** The response is decided by the link count first, then the word list,
      and a request passing both is forwarded. */
  lemma HandleDecides(content: Option<string>, name: Option<string>)
    ensures var c := content.GetOr("");
            var n := name.GetOr("");
            var links := CountPositions(LowerString(c), "http");
            var banned := exists p :: p in SpamPatterns && (ContainsIgnoringCase(c, p) || ContainsIgnoringCase(n, p));
            (Handle(content, name) == TooManyLinks <==> links > MaxLinks)
            && (Handle(content, name) == SpamDetected <==> links <= MaxLinks && banned)
            && (Handle(content, name) == Forward <==> links <= MaxLinks && !banned)
  {
    HttpCountIsPositions(LowerString(content.GetOr("")));
  }

  /** A non-empty word never occurs in the empty text. */
  lemma NothingInEmpty(p: string)
    requires p != []
    ensures !ContainsIgnoringCase("", p)
  {
  }

  /** No list of non-empty words is found in two empty fields. */
  lemma {:induction false} NoneBannedInEmpty(patterns: seq<string>)
    requires forall i :: 0 <= i < |patterns| ==> patterns[i] != []
    ensures FirstBanned(patterns, "", "") == None
  {
    if patterns != [] {
      NothingInEmpty(patterns[0]);
      NoneBannedInEmpty(patterns[1..]);
    }
  }

  /** A request without either field is forwarded. */
  lemma EmptyRequestForwarded()
    ensures Handle(None, None) == Forward
  {
    NoneBannedInEmpty(SpamPatterns);
    assert CountNonOverlapping(LowerString(""), "http") == 0;
  }
}
