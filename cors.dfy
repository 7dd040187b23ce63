/**
 * The server's cross-origin policy: the list of allowed origins read from
 * the `ORIGIN` setting, the decision the `cors` origin callback makes for
 * a request's `Origin` header, and the status the error handler gives a
 * refused request.
 */
module Cors {
  import opened Js

  /** The allowed origins when `ORIGIN` is unset or empty: the two local development servers. */
  const LocalOrigin3000: string := "http://localhost:3000"
  const LocalOrigin3001: string := "http://localhost:3001"
  const LocalOrigins: string := LocalOrigin3000 + "," + LocalOrigin3001

  const Production: string := "production"
  const RenderDomain: string := ".onrender.com"
  const VercelDomain: string := ".vercel.app"

  /** `process.env.ORIGIN || '...'`: an unset or empty setting falls back to the local origins. */
  function OriginSetting(origin: Option<string>): (raw: string)
    ensures raw != ""
  {
    if origin.None? || origin.value == "" then LocalOrigins else origin.value
  }

  /** `.map(origin => origin.trim())`. */
  function TrimEach(parts: seq<string>): (r: seq<string>)
    ensures |r| == |parts|
    ensures forall i :: 0 <= i < |parts| ==> r[i] == Trim(parts[i])
  {
    if parts == [] then [] else [Trim(parts[0])] + TrimEach(parts[1..])
  }

  /** `.filter(Boolean)` on strings: the non-empty ones, in order. */
  function NonEmpty(parts: seq<string>): (r: seq<string>)
    ensures |r| <= |parts|
    ensures forall x :: x in r <==> x in parts && x != ""
    ensures (forall i :: 0 <= i < |parts| ==> parts[i] != "") ==> r == parts
  {
    if parts == [] then []
    else
      assert forall x :: x in parts <==> x == parts[0] || x in parts[1..];
      (if parts[0] == "" then [] else [parts[0]]) + NonEmpty(parts[1..])
  }

  /** `filter(Boolean)` distributes over concatenation, so it keeps the entries in their order. */
  lemma {:induction false} NonEmptyAppend(a: seq<string>, b: seq<string>)
    ensures NonEmpty(a + b) == NonEmpty(a) + NonEmpty(b)
  {
    if a == [] {
      assert a + b == b;
    } else {
      assert (a + b)[1..] == a[1..] + b;
      NonEmptyAppend(a[1..], b);
    }
  }

  /** A setting split on commas, each entry trimmed, empty entries dropped. */
  function OriginList(raw: string): (list: seq<string>)
    ensures forall o :: o in list <==> o != "" && TrimmedEntry(Split(raw, ','), o)
    ensures forall o :: o in list ==> o != "" && IsTrimmed(o) && ',' !in o
  {
    CleanEntries(Split(raw, ','), ',');
    NonEmpty(TrimEach(Split(raw, ',')))
  }

  /** `allowedOrigins`. */
  function AllowedOrigins(origin: Option<string>): (list: seq<string>)
    ensures forall o :: o in list <==> o != "" && TrimmedEntry(Split(OriginSetting(origin), ','), o)
  {
    OriginList(OriginSetting(origin))
  }

  /**
   * Every origin in the list is non-empty, has no surrounding whitespace
   * and no comma, and the list holds exactly the non-empty trimmed entries.
   */
  lemma OriginListEntries(raw: string)
    ensures forall o :: o in OriginList(raw) <==> o != "" && TrimmedEntry(Split(raw, ','), o)
    ensures forall o :: o in OriginList(raw) ==> o != "" && IsTrimmed(o) && ',' !in o
  {
    CleanEntries(Split(raw, ','), ',');
  }

  /** `o` is one of the entries, trimmed. */
  predicate TrimmedEntry(parts: seq<string>, o: string)
  {
    exists i :: 0 <= i < |parts| && Trim(parts[i]) == o
  }

  /** Trimming entries that hold no separator and dropping the empty ones leaves clean, non-empty entries. */
  lemma CleanEntries(parts: seq<string>, sep: char)
    requires forall i :: 0 <= i < |parts| ==> sep !in parts[i]
    ensures forall o :: o in NonEmpty(TrimEach(parts)) <==> o != "" && TrimmedEntry(parts, o)
    ensures forall o :: o in NonEmpty(TrimEach(parts)) ==> o != "" && IsTrimmed(o) && sep !in o
  {
    var trimmed := TrimEach(parts);
    forall o | o in trimmed
      ensures TrimmedEntry(parts, o)
      ensures IsTrimmed(o) && sep !in o
    {
      var i :| 0 <= i < |trimmed| && trimmed[i] == o;
      assert Trim(parts[i]) == o;
      if sep in o {
        TrimKeeps(parts[i], sep);
      }
    }
    forall o | TrimmedEntry(parts, o)
      ensures o in trimmed
    {
      var i :| 0 <= i < |parts| && Trim(parts[i]) == o;
      assert trimmed[i] == o;
    }
  }

  /** A setting written as a comma-separated list of clean origins gives exactly that list, in order. */
  lemma ListedOrigins(origins: seq<string>)
    requires origins != []
    requires forall i :: 0 <= i < |origins| ==> origins[i] != "" && IsTrimmed(origins[i]) && ',' !in origins[i]
    ensures OriginList(Join(origins, ',')) == origins
  {
    SplitJoin(origins, ',');
    TrimEachClean(origins);
  }

  /** Trimming entries that are already trimmed changes none of them. */
  lemma TrimEachClean(parts: seq<string>)
    requires forall i :: 0 <= i < |parts| ==> IsTrimmed(parts[i])
    ensures TrimEach(parts) == parts
  {
    forall i | 0 <= i < |parts|
      ensures TrimEach(parts)[i] == parts[i]
    {
      TrimOfTrimmed(parts[i]);
    }
  }

  /** The fallback setting is the two local origins joined by a comma, both clean. */
  lemma LocalOriginsJoined()
    ensures Join([LocalOrigin3000, LocalOrigin3001], ',') == LocalOrigins
    ensures LocalOrigin3000 != "" && IsTrimmed(LocalOrigin3000) && ',' !in LocalOrigin3000
    ensures LocalOrigin3001 != "" && IsTrimmed(LocalOrigin3001) && ',' !in LocalOrigin3001
  {
    assert [LocalOrigin3000, LocalOrigin3001][1..] == [LocalOrigin3001];
  }

  /** Without an `ORIGIN` setting, or with an empty one, exactly the two local origins are allowed. */
  lemma DefaultOrigins()
    ensures AllowedOrigins(None) == [LocalOrigin3000, LocalOrigin3001]
    ensures AllowedOrigins(Some("")) == [LocalOrigin3000, LocalOrigin3001]
  {
    LocalOriginsJoined();
    ListedOrigins([LocalOrigin3000, LocalOrigin3001]);
  }

  /** Blanks around entries and empty entries in the setting are ignored. */
  lemma PaddedSetting()
    ensures OriginList(" a , ,b") == ["a", "b"]
  {
    PaddedSplit();
    PaddedFilter();
  }

  lemma PaddedSplit()
    ensures Split(" a , ,b", ',') == [" a ", " ", "b"]
  {
    PaddedParts();
    SplitJoin([" a ", " ", "b"], ',');
  }

  lemma PaddedFilter()
    ensures NonEmpty(TrimEach([" a ", " ", "b"])) == ["a", "b"]
  {
    PaddedTrimEach();
    DropsEmptyMiddle("a", "b");
  }

  lemma DropsEmptyMiddle(x: string, y: string)
    requires x != "" && y != ""
    ensures NonEmpty([x, "", y]) == [x, y]
  {
    assert [x, "", y][1..] == ["", y] && ["", y][1..] == [y];
  }

  lemma PaddedTrimEach()
    ensures TrimEach([" a ", " ", "b"]) == ["a", "", "b"]
  {
    TrimPadded('a');
    TrimBlank();
    TrimOfTrimmed("b");
  }

  lemma PaddedParts()
    ensures Join([" a ", " ", "b"], ',') == " a , ,b"
    ensures forall i :: 0 <= i < 3 ==> ',' !in [" a ", " ", "b"][i]
  {
    var parts := [" a ", " ", "b"];
    assert parts[1..] == [" ", "b"] && parts[1..][1..] == ["b"];
  }

  /** One space on each side of a character is trimmed away. */
  lemma TrimPadded(c: char)
    requires !IsWhitespace(c)
    ensures Trim([' ', c, ' ']) == [c]
  {
    assert IsWhitespace(' ');
    assert TrimStart([' ', c, ' ']) == [c, ' '] by {
      assert [' ', c, ' '][1..] == [c, ' '];
    }
    assert TrimEnd([c, ' ']) == [c] by {
      assert [c, ' '][..1] == [c];
    }
  }

  lemma TrimBlank()
    ensures Trim(" ") == ""
  {
    assert " "[1..] == "";
  }

  /** What the origin callback tells `cors`: allow the request, or refuse it with an error message. */
  datatype CorsDecision = Allow | Deny(message: string)

  /** `origin.includes('.onrender.com') || origin.includes('.vercel.app')`. */
  predicate HostedDomain(origin: string)
    ensures HostedDomain(origin) <==>
      exists i :: OccursAt(origin, RenderDomain, i) || OccursAt(origin, VercelDomain, i)
  {
    ContainsAt(origin, RenderDomain);
    ContainsAt(origin, VercelDomain);
    Contains(origin, RenderDomain) || Contains(origin, VercelDomain)
  }

  /**
   * The origin callback: a request without an origin is allowed; an origin
   * equal to an allowed one is allowed; in production an origin mentioning
   * a Render or Vercel domain is allowed; anything else is refused with an
   * error whose message names CORS.
   */
  function OriginCallback(origin: Option<string>, allowed: seq<string>, nodeEnv: Option<string>): (d: CorsDecision)
    ensures origin.None? || origin.value == "" ==> d == Allow
    ensures d.Deny? ==> Contains(d.message, "CORS")
    ensures nodeEnv != Some(Production) ==>
      (d.Allow? <==> origin.None? || origin.value == "" || origin.value in allowed)
    ensures nodeEnv == Some(Production) ==>
      (d.Allow? <==> origin.None? || origin.value == "" || origin.value in allowed || HostedDomain(origin.value))
  {
    if origin.None? || origin.value == "" then Allow
    else if origin.value in allowed then Allow
    else if nodeEnv == Some(Production) && HostedDomain(origin.value) then Allow
    else
      var message := "CORS: Origin " + origin.value + " not allowed";
      assert message[..4] == "CORS";
      Deny(message)
  }

  /** Production only widens the policy: whatever is allowed elsewhere is allowed there. */
  lemma ProductionWidens(origin: Option<string>, allowed: seq<string>, nodeEnv: Option<string>)
    requires OriginCallback(origin, allowed, nodeEnv).Allow?
    ensures OriginCallback(origin, allowed, Some(Production)).Allow?
  {
  }

  /** In production, a Render or Vercel origin is allowed whatever the list says. */
  lemma HostedAllowedInProduction(origin: string, allowed: seq<string>)
    requires HostedDomain(origin)
    ensures OriginCallback(Some(origin), allowed, Some(Production)) == Allow
  {
  }

  /**
   * The domain test is a substring test: in production any origin that
   * mentions a Vercel domain anywhere passes, such as
   * `https://app.vercel.app.example.com`.
   */
  lemma DomainAnywhere(prefix: string, suffix: string, allowed: seq<string>)
    ensures OriginCallback(Some(prefix + VercelDomain + suffix), allowed, Some(Production)) == Allow
  {
    var o := prefix + VercelDomain + suffix;
    assert o[|prefix|..|prefix| + |VercelDomain|] == VercelDomain;
    assert OccursAt(o, VercelDomain, |prefix|);
    ContainsAt(o, VercelDomain);
  }

  /** The reply of the error-handling middleware. */
  datatype ErrorReply = ErrorReply(status: nat, message: string, error: Option<string>)

  /**
   * The error handler: an error whose message mentions CORS is a 403 that
   * carries the message; any other error is a 500 with a generic message
   * and the original one under `error`.
   */
  function ErrorHandler(message: string): (r: ErrorReply)
    ensures r.status == 403 <==> Contains(message, "CORS")
    ensures r.status == 403 ==> r.message == message && r.error == None
    ensures r.status != 403 ==> r.status == 500 && r.message == "Internal server error" && r.error == Some(message)
  {
    if Contains(message, "CORS") then ErrorReply(403, message, None)
    else ErrorReply(500, "Internal server error", Some(message))
  }

  /** A refused origin reaches the client as a 403 carrying the refusal message. */
  lemma RefusalIsForbidden(origin: Option<string>, allowed: seq<string>, nodeEnv: Option<string>)
    requires OriginCallback(origin, allowed, nodeEnv).Deny?
    ensures ErrorHandler(OriginCallback(origin, allowed, nodeEnv).message) ==
      ErrorReply(403, "CORS: Origin " + origin.value + " not allowed", None)
  {
  }
}
