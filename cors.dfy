/**
 * The API's cross-origin rule: the allow-list is read once from the
 * `ALLOWED_ORIGINS` environment variable (split on commas) or falls back to
 * the two local development origins, and each request's origin is accepted
 * when it is absent or listed exactly.
 */
module Cors {
  import opened Common

  const DefaultOrigins: seq<string> := ["http://localhost:8080", "http://localhost:3001"]
  const Comma: char := ','
  const BlockedMessage: string := "Not allowed by CORS"

  /** Index of the first `c` in `s`. */
  function IndexOf(s: string, c: char): (r: nat)
    requires c in s
    ensures r < |s| && s[r] == c && c !in s[..r]
  {
    if s[0] == c then 0
    else
      assert c in s[1..] by {
        var k :| 0 <= k < |s| && s[k] == c;
        assert s[1..][k - 1] == c;
      }
      var r := 1 + IndexOf(s[1..], c);
      assert s[..r] == [s[0]] + s[1..][..r - 1];
      r
  }

  /**
   * JavaScript's `s.split(sep)` for a one-character separator: the maximal
   * separator-free pieces, empty ones included, with nothing trimmed.
   */
  function Split(s: string, sep: char): (parts: seq<string>)
    ensures |parts| >= 1
    ensures forall i :: 0 <= i < |parts| ==> sep !in parts[i]
    ensures Join(parts, [sep]) == s
    decreases |s|
  {
    if sep !in s then [s]
    else
      var i := IndexOf(s, sep);
      var rest := Split(s[i + 1..], sep);
      var parts := [s[..i]] + rest;
      assert parts[1..] == rest;
      assert s == s[..i] + [sep] + s[i + 1..];
      parts
  }

  /** Splitting undoes joining, whenever no part contains the separator. */
  lemma {:induction false} SplitJoin(parts: seq<string>, sep: char)
    requires |parts| >= 1
    requires forall i :: 0 <= i < |parts| ==> sep !in parts[i]
    ensures Split(Join(parts, [sep]), sep) == parts
    decreases |parts|
  {
    if |parts| == 1 {
      assert Join(parts, [sep]) == parts[0];
    } else {
      var tail := Join(parts[1..], [sep]);
      var s := Join(parts, [sep]);
      assert s == parts[0] + [sep] + tail;
      assert s[|parts[0]|] == sep;
      var i := IndexOf(s, sep);
      assert i == |parts[0]|;
      assert s[..i] == parts[0];
      assert s[i + 1..] == tail;
      SplitJoin(parts[1..], sep);
    }
  }

  /**
   * `allowedOrigins`: an `ALLOWED_ORIGINS` value that is set and non-empty is
   * split on commas; an unset or empty one gives the defaults.
   */
  function AllowedOrigins(env: Option<string>): (r: seq<string>)
    ensures env.None? || env.value == "" ==> r == DefaultOrigins
    ensures env.Some? && env.value != "" ==> Join(r, [Comma]) == env.value
    ensures env.Some? && env.value != "" ==> |r| >= 1 && forall i :: 0 <= i < |r| ==> Comma !in r[i]
  {
    if env.Some? && env.value != "" then Split(env.value, Comma) else DefaultOrigins
  }

  datatype Decision = Allow | Deny(message: string)

  /**
   * The `origin` callback: no origin (absent or empty) is accepted; otherwise
   * the origin is accepted exactly when it is an element of the allow-list,
   * and rejected with the CORS error otherwise.
   */
  function OriginDecision(origin: Option<string>, allowed: seq<string>): (r: Decision)
    ensures r.Allow? <==> origin.None? || origin.value == "" || origin.value in allowed
    ensures r.Deny? ==> r.message == BlockedMessage
  {
    if origin.None? || origin.value == "" then Allow
    else if origin.value in allowed then Allow
    else Deny(BlockedMessage)
  }

  /**
   * Without configuration, only the two local origins (and requests without
   * one) pass; every other origin is rejected with the CORS error.
   */
  lemma DefaultOriginsAllowed(origin: string)
    ensures OriginDecision(None, AllowedOrigins(None)) == Allow
    ensures OriginDecision(Some(origin), AllowedOrigins(None)).Allow? <==>
              origin == "" || origin == "http://localhost:8080" || origin == "http://localhost:3001"
    ensures OriginDecision(Some(origin), AllowedOrigins(None)) != Allow ==>
              OriginDecision(Some(origin), AllowedOrigins(None)) == Deny(BlockedMessage)
  {
  }

  /** Every origin listed in a comma-separated configuration is accepted, verbatim. */
  lemma {:induction false} ListedOriginAllowed(parts: seq<string>, origin: string)
    requires |parts| >= 1
    requires forall i :: 0 <= i < |parts| ==> Comma !in parts[i]
    requires Join(parts, [Comma]) != ""
    requires origin in parts
    ensures AllowedOrigins(Some(Join(parts, [Comma]))) == parts
    ensures OriginDecision(Some(origin), AllowedOrigins(Some(Join(parts, [Comma])))).Allow?
  {
    SplitJoin(parts, Comma);
  }

  /** With a configuration, a non-empty origin passes exactly when it is one of the listed pieces, verbatim. */
  lemma {:induction false} ConfiguredOriginAllowed(parts: seq<string>, origin: string)
    requires |parts| >= 1
    requires forall i :: 0 <= i < |parts| ==> Comma !in parts[i]
    requires Join(parts, [Comma]) != ""
    requires origin != ""
    ensures OriginDecision(Some(origin), AllowedOrigins(Some(Join(parts, [Comma])))).Allow? <==> origin in parts
    ensures origin !in parts ==>
              OriginDecision(Some(origin), AllowedOrigins(Some(Join(parts, [Comma])))) == Deny(BlockedMessage)
  {
    SplitJoin(parts, Comma);
  }

  /** An origin containing a comma can never match a configured list. */
  lemma OriginWithCommaDenied(env: string, origin: string)
    requires env != ""
    requires Comma in origin
    ensures OriginDecision(Some(origin), AllowedOrigins(Some(env))) == Deny(BlockedMessage)
  {
  }

  /** Nothing is trimmed: a space after a comma stays part of the next origin. */
  lemma NoTrimming()
    ensures OriginDecision(Some("b"), AllowedOrigins(Some("a, b"))) == Deny(BlockedMessage)
    ensures OriginDecision(Some(" b"), AllowedOrigins(Some("a, b"))) == Allow
  {
    ListedOriginAllowed(["a", " b"], " b");
    assert Join(["a", " b"], [Comma]) == "a, b";
    assert "b" != "a" && "b" != " b";
  }
}
