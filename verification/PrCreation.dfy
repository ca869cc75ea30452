/** scripts/local_codex_task_runner.py create_pr_with_retry, against a GitHub that may open the pull
    request and still report a failure. */
module PrCreation {
  import opened Text
  import opened Footers

  const MAX_ATTEMPTS := 3
  const BACKOFF := [0.1, 0.2]

  // ---------------------------------------------------------------- which errors are retried

  const RETRYABLE := ["502", "503", "504", "timeout", "timed out", "temporary", "temporarily", "network", "api gateway",
                      "bad gateway", "gateway timeout", "service unavailable", "connection reset", "connection refused",
                      "connection aborted", "tls handshake timeout", "i/o timeout"]

  /** \b: the characters on the two sides are of different kinds. */
  predicate AtBoundary(s: string, i: nat)
    requires i <= |s|
  {
    (i > 0 && IsWord(s[i - 1])) != (i < |s| && IsWord(s[i]))
  }

  predicate RetryableAt(text: string, i: nat, word: string)
    requires i <= |text|
  {
    FoldPrefix(word, text[i..]) && AtBoundary(text, i) && AtBoundary(text, i + |word|)
  }

  predicate Retryable(text: string) {
    exists i, k :: 0 <= i <= |text| && 0 <= k < |RETRYABLE| && RetryableAt(text, i, RETRYABLE[k])
  }

  /** The words a passing error of the network is known by. */
  predicate IsPassing(word: string) { IsTime(word) || IsGateway(word) || IsConnection(word) }

  predicate IsTime(word: string) {
    || word == "timeout" || word == "timed out" || word == "temporary" || word == "temporarily" || word == "tls handshake timeout"
    || word == "i/o timeout"
  }

  predicate IsGateway(word: string) {
    || word == "502" || word == "503" || word == "504" || word == "api gateway" || word == "bad gateway" || word == "gateway timeout"
  }

  predicate IsConnection(word: string) {
    || word == "network" || word == "service unavailable" || word == "connection reset" || word == "connection refused"
    || word == "connection aborted"
  }

  /** The word stands in the text at i, in whatever case and not as a part of another word. */
  predicate StandsAt(text: string, i: nat, word: string) {
    && i + |word| <= |text| && AnyCase(text[i..i + |word|], word)
    && (i == 0 || !IsWord(text[i - 1])) && (i + |word| == |text| || !IsWord(text[i + |word|]))
  }

  lemma PassingWords(word: string)
    ensures IsPassing(word) <==> word in RETRYABLE
  {
    if IsPassing(word) {
      var i := if word == "502" then 0 else if word == "503" then 1 else if word == "504" then 2 else if word == "timeout" then 3
               else if word == "timed out" then 4 else if word == "temporary" then 5 else if word == "temporarily" then 6
               else if word == "network" then 7 else if word == "api gateway" then 8 else if word == "bad gateway" then 9
               else if word == "gateway timeout" then 10 else if word == "service unavailable" then 11
               else if word == "connection reset" then 12 else if word == "connection refused" then 13
               else if word == "connection aborted" then 14 else if word == "tls handshake timeout" then 15 else 16;
      assert RETRYABLE[i] == word;
    }
  }

  /** Such words begin and end with a letter or a digit. */
  predicate HasEnds(word: string) {
    && word != [] && IsWord(word[0]) && IsWord(word[|word| - 1])
    && forall k :: 0 <= k < |word| ==> 'a' <= word[k] <= 'z' || '0' <= word[k] <= '9' || word[k] == ' ' || word[k] == '/'
  }

  lemma TimeEnds(word: string)
    requires IsTime(word)
    ensures HasEnds(word)
  {
  }

  lemma GatewayEnds(word: string)
    requires IsGateway(word)
    ensures HasEnds(word)
  {
  }

  lemma ConnectionEnds(word: string)
    requires IsConnection(word)
    ensures HasEnds(word)
  {
  }

  lemma PassingEnds(word: string)
    requires IsPassing(word)
    ensures HasEnds(word)
  {
    hide IsTime, IsGateway, IsConnection, HasEnds;
    if IsTime(word) { TimeEnds(word); } else if IsGateway(word) { GatewayEnds(word); } else { ConnectionEnds(word); }
  }

  predicate Ascii(s: string) { forall i :: 0 <= i < |s| ==> s[i] < '\U{80}' }

  lemma FoldsAs(text: string, i: nat, word: string)
    requires Ascii(text) && HasEnds(word) && i + |word| <= |text|
    ensures FoldPrefix(word, text[i..]) <==> AnyCase(text[i..i + |word|], word)
  {
    var part := text[i..i + |word|];
    forall k | 0 <= k < |word| ensures Fold(text[i..][k]) == word[k] <==> IsCaseOf(part[k], word[k]) { assert part[k] == text[i..][k] == text[i + k]; }
    hide Fold, IsCaseOf;
  }

  lemma CaseOfWord(c: char, small: char)
    requires IsCaseOf(c, small) && c < '\U{80}' && IsWord(small)
    ensures IsWord(c)
  {
  }

  lemma FoldsHere(text: string, i: nat, word: string)
    requires Ascii(text) && i <= |text| && IsPassing(word)
    ensures RetryableAt(text, i, word) <==> StandsAt(text, i, word)
  {
    PassingEnds(word);
    assert word != [] && IsWord(word[0]) && IsWord(word[|word| - 1]);
    if i + |word| <= |text| {
      FoldsAs(text, i, word);
      var part, n := text[i..i + |word|], |word|;
      if AnyCase(part, word) {
        assert part[0] == text[i] && part[n - 1] == text[i + n - 1];
        CaseOfWord(text[i], word[0]);
        CaseOfWord(text[i + n - 1], word[n - 1]);
      }
    }
    hide IsPassing, HasEnds, IsWord, AnyCase;
  }

  /** An error in plain letters is retried exactly when one of these words stands in it. */
  lemma RetryableMeans(text: string)
    requires Ascii(text)
    ensures Retryable(text) <==> exists i: nat, word :: i <= |text| && IsPassing(word) && StandsAt(text, i, word)
  {
    hide RETRYABLE, IsPassing, StandsAt, RetryableAt, Ascii;
    if Retryable(text) {
      var i, k :| 0 <= i <= |text| && 0 <= k < |RETRYABLE| && RetryableAt(text, i, RETRYABLE[k]);
      PassingWords(RETRYABLE[k]);
      FoldsHere(text, i, RETRYABLE[k]);
    }
    if i: nat, word :| i <= |text| && IsPassing(word) && StandsAt(text, i, word) {
      PassingWords(word);
      var k :| 0 <= k < |RETRYABLE| && RETRYABLE[k] == word;
      FoldsHere(text, i, word);
    }
  }

  // ---------------------------------------------------------------- the outside

  predicate IsUrl(url: string) { url != [] && Stripped(url) }

  datatype Reply = Printed(text: string) | Error(text: string)

  datatype Call = Create(error: Option<string>) | List | Sleep(seconds: real)

  /** The pull requests open for one head branch, and the calls made so far. */
  class Hub {
    var open: seq<string>
    ghost var calls: seq<Call>

    ghost predicate Valid() reads this { forall i :: 0 <= i < |open| ==> IsUrl(open[i]) }

    constructor (open: seq<string>)
      requires forall i :: 0 <= i < |open| ==> IsUrl(open[i])
      ensures Valid() && this.open == open && calls == []
    {
      this.open, calls := open, [];
    }

    /** gh pr create: a reported success prints the new url on a line; a failure may have happened
        before the pull request was opened, or after. */
    method Create() returns (r: Reply)
      requires Valid()
      modifies this
      ensures Valid()
      ensures calls == old(calls) + [Call.Create(if r.Error? then Some(r.text) else None)]
      ensures open == old(open) || exists url :: IsUrl(url) && open == old(open) + [url]
      ensures r.Printed? ==> open != [] && open == old(open) + [open[|open| - 1]] && r.text == open[|open| - 1] + "\n"
    {
      var url: string, made: bool, reported: bool, text: string := *, *, *, *;
      if made && IsUrl(url) {
        open := open + [url];
        r := if reported then Printed(url + "\n") else Error(text);
      } else {
        r := Error(text);
      }
      calls := calls + [Call.Create(if r.Error? then Some(r.text) else None)];
    }

    /** gh pr list --head branch --state open --limit 1, which may fail too. */
    method List() returns (failure: Option<string>, urls: seq<string>)
      requires Valid()
      modifies `calls
      ensures calls == old(calls) + [Call.List]
      ensures failure.None? ==> urls == open[..if |open| == 0 then 0 else 1]
    {
      failure := *;
      urls := if failure.None? then open[..if |open| == 0 then 0 else 1] else [];
      calls := calls + [Call.List];
    }

    method Sleep(seconds: real)
      modifies `calls
      ensures calls == old(calls) + [Call.Sleep(seconds)]
    {
      calls := calls + [Call.Sleep(seconds)];
    }
  }

  datatype Lookup = Found(url: string) | Nothing | LookupFailed(text: string)

  /** existing_pr_url_for_branch: the first url that is not blank. */
  method ExistingPrUrl(hub: Hub) returns (r: Lookup)
    requires hub.Valid()
    modifies hub`calls
    ensures hub.calls == old(hub.calls) + [Call.List]
    ensures r.Nothing? ==> hub.open == []
    ensures r.Found? ==> r.url in hub.open
  {
    var failure, urls := hub.List();
    if failure.Some? { return LookupFailed(failure.value); }
    for i := 0 to |urls|
      invariant i == 0 && hub.calls == old(hub.calls) + [Call.List]
    {
      assert urls[i] == hub.open[i];
      StripOf(urls[i]);
      if Strip(urls[i]) != [] { return Found(Strip(urls[i])); }
    }
    return Nothing;
  }

  // ---------------------------------------------------------------- the retry loop

  datatype Outcome = Url(url: string) | PrCreationError(text: string) | RunnerError(text: string, lookup: bool)

  /** The sleep after the last of these failures. */
  ghost function Pause(errors: seq<string>): seq<Call> {
    if errors == [] then [] else [Call.Sleep(BACKOFF[if |errors| <= 2 then |errors| - 1 else 1])]
  }

  /** The calls of these failed rounds: a create and a look-up each, with sleeps in between. */
  ghost function Rounds(errors: seq<string>): seq<Call> {
    if errors == [] then []
    else
      var before := errors[..|errors| - 1];
      Rounds(before) + Pause(before) + [Call.Create(Some(errors[|errors| - 1])), Call.List]
  }

  lemma RoundsMore(errors: seq<string>, error: string)
    ensures Rounds(errors + [error]) == Rounds(errors) + Pause(errors) + [Call.Create(Some(error)), Call.List]
  {
    assert (errors + [error])[..|errors|] == errors;
  }

  function Attempts(calls: seq<Call>): nat {
    if calls == [] then 0 else (if calls[|calls| - 1].Create? then 1 else 0) + Attempts(calls[..|calls| - 1])
  }

  function Sleeps(calls: seq<Call>): seq<real> {
    if calls == [] then []
    else Sleeps(calls[..|calls| - 1]) + (if calls[|calls| - 1].Sleep? then [calls[|calls| - 1].seconds] else [])
  }

  lemma OneMore(calls: seq<Call>, call: Call)
    ensures Attempts(calls + [call]) == Attempts(calls) + if call.Create? then 1 else 0
    ensures Sleeps(calls + [call]) == Sleeps(calls) + if call.Sleep? then [call.seconds] else []
  {
    assert (calls + [call])[..|calls|] == calls;
  }

  /** n failed rounds are n attempts with n - 1 sleeps between them. */
  lemma {:induction false} RoundsCounted(errors: seq<string>)
    requires |errors| <= MAX_ATTEMPTS
    ensures Attempts(Rounds(errors)) == |errors|
    ensures Sleeps(Rounds(errors)) == BACKOFF[..if errors == [] then 0 else |errors| - 1]
  {
    if errors != [] {
      var before, last := errors[..|errors| - 1], errors[|errors| - 1];
      RoundsCounted(before);
      var calls := Rounds(before) + Pause(before);
      PauseCounted(Rounds(before), before);
      OneMore(calls, Call.Create(Some(last)));
      OneMore(calls + [Call.Create(Some(last))], Call.List);
      assert Rounds(errors) == calls + [Call.Create(Some(last))] + [Call.List];
    }
  }

  lemma PauseCounted(calls: seq<Call>, errors: seq<string>)
    requires |errors| < MAX_ATTEMPTS && Sleeps(calls) == BACKOFF[..if errors == [] then 0 else |errors| - 1]
    ensures Attempts(calls + Pause(errors)) == Attempts(calls)
    ensures Sleeps(calls + Pause(errors)) == BACKOFF[..|errors|]
  {
    if errors == [] {
      assert calls + [] == calls;
    } else {
      OneMore(calls, Pause(errors)[0]);
      assert [Pause(errors)[0]] == Pause(errors);
    }
  }

  /** At most three attempts, with sleeps of 0.1 and 0.2 seconds between them; a url returned is one
      that is open; a pull request is never opened beside another; a PrCreationError comes after three
      failures that may all be retried, carries the first error text and leaves nothing open; and the
      raise behind the loop is never reached. */
  method CreatePrWithRetry(hub: Hub) returns (r: Outcome, ghost errors: seq<string>)
    requires hub.Valid() && hub.calls == []
    modifies hub
    ensures hub.Valid() && old(hub.open) <= hub.open
    ensures r.Url? ==> r.url in hub.open
    ensures old(hub.open) == [] ==> |hub.open| <= 1
    ensures Attempts(hub.calls) <= 3 && Sleeps(hub.calls) <= [0.1, 0.2]
    ensures |errors| <= 3
    ensures || hub.calls == Rounds(errors)
            || (r.Url? && |errors| < 3 && hub.calls == Rounds(errors) + Pause(errors) + [Call.Create(None)])
    ensures forall i :: 0 <= i < |errors| - 1 ==> Retryable(errors[i])
    ensures r.PrCreationError? ==>
              |errors| == 3 && Retryable(errors[2]) && r.text == errors[0] && hub.open == []
    ensures r.RunnerError? ==> errors != [] && hub.calls == Rounds(errors)
    ensures r.RunnerError? && !r.lookup ==> r.text == errors[|errors| - 1] && !Retryable(r.text) && hub.open == []
  {
    hide Retryable, Rounds, Stripped, Attempts, Sleeps, Pause;
    var originalErrorText: Option<string> := None;
    var attempts := 0;
    errors := [];
    NoRounds();
    while attempts < MAX_ATTEMPTS
      invariant attempts == |errors| < MAX_ATTEMPTS
      invariant hub.Valid() && old(hub.open) <= hub.open
      invariant attempts == 0 ==> hub.open == old(hub.open)
      invariant attempts > 0 ==> hub.open == []
      invariant hub.calls == Rounds(errors) + Pause(errors)
      invariant forall i :: 0 <= i < |errors| ==> Retryable(errors[i])
      invariant originalErrorText == if errors == [] then None else Some(errors[0])
      decreases MAX_ATTEMPTS - attempts
    {
      attempts := attempts + 1;
      RoundsCounted(errors);
      PauseCounted(Rounds(errors), errors);
      var reply := hub.Create();
      if reply.Printed? {
        OneMore(Rounds(errors) + Pause(errors), Call.Create(None));
        PrintedUrl(hub.open[|hub.open| - 1]);
        return Url(Strip(reply.text)), errors;
      }
      var errorText := reply.text;
      RoundsMore(errors, errorText);
      errors := errors + [errorText];
      if originalErrorText.None? { originalErrorText := Some(errorText); }
      var existing := ExistingPrUrl(hub);
      assert hub.calls == Rounds(errors);
      RoundsCounted(errors);
      if existing.LookupFailed? { return RunnerError(existing.text, true), errors; }
      if existing.Found? { return Url(existing.url), errors; }
      if !Retryable(errorText) { return RunnerError(errorText, false), errors; }
      if attempts >= MAX_ATTEMPTS { return PrCreationError(originalErrorText.value), errors; }
      hub.Sleep(BACKOFF[if attempts - 1 <= |BACKOFF| - 1 then attempts - 1 else |BACKOFF| - 1]);
      PauseIs(errors);
    }
    assert false;
  }

  lemma NoRounds()
    ensures Rounds([]) == [] && Pause([]) == []
  {
  }

  lemma PauseIs(errors: seq<string>)
    requires 0 < |errors| <= 2
    ensures Pause(errors) == [Call.Sleep(BACKOFF[|errors| - 1])]
  {
  }

  lemma PrintedUrl(url: string)
    requires IsUrl(url)
    ensures Strip(url + "\n") == url
  {
    assert [] + url + "\n" == url + "\n";
    StripCore([], url, "\n");
  }
}
