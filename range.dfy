/** The scan of a range response (get_password_leaks_count): every line is
    split on ':' into a hash suffix and a count, and the count text of the
    first line whose suffix equals the one being checked is returned. */
module Range {
  import opened Outcomes
  import opened Text

  /** What the scan yields: the count text (a Python str) of the matching
      line, or the integer 0 when no line matches. */
  datatype Count = Found(text: string) | NotFound

  /** `line.split(':')`. */
  function Fields(line: string): seq<string> {
    Split(line, ':')
  }

  /** A line the scan steps over: it unpacks into two fields and its hash
      part differs from h. */
  predicate Skips(line: string, h: string) {
    |Fields(line)| == 2 && Fields(line)[0] != h
  }

  /** The scan steps over every line before index i. */
  predicate SkipsBefore(lines: seq<string>, h: string, i: int)
    requires i <= |lines|
  {
    forall j :: 0 <= j < i ==> Skips(lines[j], h)
  }

  /** The lazy scan over the lines, as a function: the loop stops at the
      first line that fails to unpack (ValueError) or that matches. */
  function Scan(lines: seq<string>, h: string): (r: Result<Count>)
    ensures r.Err? ==> r.error.UnpackError? && r.error.line in lines && |Fields(r.error.line)| != 2
    ensures r.Ok? && r.value.Found? ==> exists line :: line in lines && Fields(line) == [h, r.value.text]
  {
    if lines == [] then Ok(NotFound)
    else
      var fields := Fields(lines[0]);
      if |fields| != 2 then Err(UnpackError(lines[0]))
      else if fields[0] == h then Ok(Found(fields[1]))
      else Scan(lines[1..], h)
  }

  /** get_password_leaks_count(hashes, hash_to_check): the for loop with its
      early return, over the lines of the response body. */
  method GetPasswordLeaksCount(body: string, hashToCheck: string) returns (r: Result<Count>)
    ensures r == Scan(SplitLines(body), hashToCheck)
  {
    var lines := SplitLines(body);
    var i := 0;
    while i < |lines|
      invariant 0 <= i <= |lines|
      invariant Scan(lines, hashToCheck) == Scan(lines[i..], hashToCheck)
    {
      var fields := Split(lines[i], ':');
      if |fields| != 2 {
        return Err(UnpackError(lines[i]));
      }
      var h, count := fields[0], fields[1];
      if h == hashToCheck {
        return Ok(Found(count));
      }
      assert lines[i..][1..] == lines[i + 1..];
      i := i + 1;
    }
    return Ok(NotFound);
  }

  // ------------------------------------------------------- scan properties

  /** Lines that are stepped over do not influence the result. */
  lemma {:induction false} ScanSkipsPrefix(lines: seq<string>, h: string, i: nat)
    requires i <= |lines|
    requires forall j :: 0 <= j < i ==> Skips(lines[j], h)
    ensures Scan(lines, h) == Scan(lines[i..], h)
  {
    if i > 0 {
      ScanSkipsPrefix(lines[1..], h, i - 1);
      assert lines[1..][i - 1..] == lines[i..];
    }
  }

  /** The count of the FIRST line whose hash part equals h exactly. */
  lemma ScanFirstMatch(lines: seq<string>, h: string, i: nat, count: string)
    requires i < |lines|
    requires forall j :: 0 <= j < i ==> Skips(lines[j], h)
    requires Fields(lines[i]) == [h, count]
    ensures Scan(lines, h) == Ok(Found(count))
  {
    ScanSkipsPrefix(lines, h, i);
  }

  /** A line that does not unpack into two fields raises, once the scan
      reaches it. */
  lemma ScanFirstMalformed(lines: seq<string>, h: string, i: nat)
    requires i < |lines|
    requires forall j :: 0 <= j < i ==> Skips(lines[j], h)
    requires |Fields(lines[i])| != 2
    ensures Scan(lines, h) == Err(UnpackError(lines[i]))
  {
    ScanSkipsPrefix(lines, h, i);
  }

  /** The scan yields 0 exactly when every line unpacks and none matches. */
  lemma {:induction false} ScanNotFoundIff(lines: seq<string>, h: string)
    ensures Scan(lines, h) == Ok(NotFound) <==> forall j :: 0 <= j < |lines| ==> Skips(lines[j], h)
  {
    if lines != [] {
      ScanNotFoundIff(lines[1..], h);
      if Skips(lines[0], h) {
        forall j | 1 <= j < |lines| ensures lines[j] == lines[1..][j - 1] { }
      }
    }
  }

  /** A found count comes from a matching line with only stepped-over lines
      before it. */
  lemma {:induction false} ScanFoundWitness(lines: seq<string>, h: string, count: string)
    requires Scan(lines, h) == Ok(Found(count))
    ensures exists i :: 0 <= i < |lines| && Fields(lines[i]) == [h, count] && SkipsBefore(lines, h, i)
  {
    var fields := Fields(lines[0]);
    if fields[0] == h {
      assert Fields(lines[0]) == [h, count];
    } else {
      ScanFoundWitness(lines[1..], h, count);
      var i :| 0 <= i < |lines| - 1 && Fields(lines[1..][i]) == [h, count] && SkipsBefore(lines[1..], h, i);
      assert Fields(lines[i + 1]) == [h, count];
      forall j | 0 <= j < i + 1 ensures Skips(lines[j], h) {
        if j > 0 { assert lines[j] == lines[1..][j - 1]; }
      }
    }
  }

  /** Laziness: the lines after a match or a failing line are never
      parsed, so appending lines changes the result only when the scan ran
      through all of the first part without deciding. */
  lemma {:induction false} ScanAppend(xs: seq<string>, ys: seq<string>, h: string)
    ensures Scan(xs + ys, h) == if Scan(xs, h) == Ok(NotFound) then Scan(ys, h) else Scan(xs, h)
  {
    if xs == [] {
      assert xs + ys == ys;
    } else {
      assert (xs + ys)[0] == xs[0];
      assert (xs + ys)[1..] == xs[1..] + ys;
      ScanAppend(xs[1..], ys, h);
    }
  }

  // ----------------------------------------------- well-formed responses

  /** One response line `SUFFIX:COUNT`. */
  function Entry(pair: (string, string)): string {
    pair.0 + [':'] + pair.1
  }

  function Entries(pairs: seq<(string, string)>): (r: seq<string>)
    ensures |r| == |pairs|
  {
    if pairs == [] then [] else [Entry(pairs[0])] + Entries(pairs[1..])
  }

  /** A response body with one `SUFFIX:COUNT` line per pair, each ended by
      the terminator `term`. */
  function EncodeResponse(pairs: seq<(string, string)>, term: string): string {
    Terminated(Entries(pairs), term)
  }

  /** A response body with one `SUFFIX:COUNT` line per pair, the lines
      separated by `term` and the last one left unterminated. */
  function SeparatedResponse(pairs: seq<(string, string)>, term: string): string {
    if pairs == [] then []
    else Terminated(Entries(pairs[..|pairs| - 1]), term) + Entry(pairs[|pairs| - 1])
  }

  predicate WellFormedPair(pair: (string, string)) {
    ':' !in pair.0 && ':' !in pair.1 && NoBreak(pair.0) && NoBreak(pair.1)
  }

  /** The reference lookup: the count of the first pair whose suffix is h. */
  function Lookup(pairs: seq<(string, string)>, h: string): Count {
    if pairs == [] then NotFound
    else if pairs[0].0 == h then Found(pairs[0].1)
    else Lookup(pairs[1..], h)
  }

  lemma EntryFields(pair: (string, string))
    requires ':' !in pair.0 && ':' !in pair.1
    ensures Fields(Entry(pair)) == [pair.0, pair.1]
  {
    SplitJoin([pair.0, pair.1], ':');
  }

  lemma {:induction false} ScanEntries(pairs: seq<(string, string)>, h: string)
    requires forall k :: 0 <= k < |pairs| ==> WellFormedPair(pairs[k])
    ensures Scan(Entries(pairs), h) == Ok(Lookup(pairs, h))
  {
    if pairs != [] {
      EntryFields(pairs[0]);
      ScanEntries(pairs[1..], h);
    }
  }

  /** Scanning a well-formed response finds exactly what the reference
      lookup finds, whether or not the last line is terminated, with "\n"
      or "\r\n" line ends: the scan is a correct reader of the range
      format. */
  lemma ScanEncodedResponse(pairs: seq<(string, string)>, h: string, term: string)
    requires term == "\n" || term == "\r\n"
    requires forall k :: 0 <= k < |pairs| ==> WellFormedPair(pairs[k])
    ensures Scan(SplitLines(EncodeResponse(pairs, term)), h) == Ok(Lookup(pairs, h))
    ensures Scan(SplitLines(SeparatedResponse(pairs, term)), h) == Ok(Lookup(pairs, h))
  {
    var lines := Entries(pairs);
    forall k | 0 <= k < |lines| ensures NoBreak(lines[k]) {
      EntryNoBreak(pairs, k);
    }
    SplitLinesTerminated(lines, term);
    ScanEntries(pairs, h);
    if pairs != [] {
      var n := |pairs| - 1;
      EntriesSnoc(pairs);
      var init := Entries(pairs[..n]);
      assert lines == init + [Entry(pairs[n])];
      assert forall k :: 0 <= k < |init| ==> NoBreak(init[k]) by {
        forall k | 0 <= k < |init| ensures NoBreak(init[k]) {
          assert init[k] == lines[k];
        }
      }
      assert Entry(pairs[n]) != [] && NoBreak(Entry(pairs[n])) by {
        assert lines[n] == Entry(pairs[n]);
      }
      SplitLinesSeparated(init, term, Entry(pairs[n]));
    }
  }

  lemma {:induction false} EntriesSnoc(pairs: seq<(string, string)>)
    requires pairs != []
    ensures Entries(pairs) == Entries(pairs[..|pairs| - 1]) + [Entry(pairs[|pairs| - 1])]
  {
    if |pairs| > 1 {
      var tail := pairs[1..];
      EntriesSnoc(tail);
      assert tail[..|tail| - 1] == pairs[..|pairs| - 1][1..];
      assert pairs[..|pairs| - 1][0] == pairs[0];
    }
  }

  lemma {:induction false} EntryNoBreak(pairs: seq<(string, string)>, k: nat)
    requires k < |pairs| && WellFormedPair(pairs[k])
    ensures NoBreak(Entries(pairs)[k])
  {
    if k == 0 {
      var e := Entry(pairs[0]);
      forall j | 0 <= j < |e| ensures !IsLineBreak(e[j]) {
        if j < |pairs[0].0| { assert e[j] == pairs[0].0[j]; }
        else if j > |pairs[0].0| { assert e[j] == pairs[0].1[j - |pairs[0].0| - 1]; }
      }
    } else {
      EntryNoBreak(pairs[1..], k - 1);
    }
  }
}
