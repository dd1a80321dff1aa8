/** The checker itself: the local common-password lookup, the range query,
    the classification of each password and the printed report of `main`.
    The password file, the SHA-1 hexdigest and the HTTP GET are oracles. */
module PassCheck {
  import opened Outcomes
  import opened Text
  import opened Digest
  import opened Range

  // --------------------------------------------------------------- oracles

  /** What opening and reading 'common_passwords.txt' gives. */
  datatype CommonFile = Missing | Unreadable | Readable(text: string)

  /** What `requests.get(url)` answers. */
  datatype HttpResponse = HttpResponse(status: int, text: string)

  /** The outside world of one run: the password file, hashlib's SHA-1
      hexdigest of the UTF-8 bytes of a password, and the HTTP GET. */
  datatype Oracles = Oracles(common: CommonFile, sha1: string -> HexDigest, get: string -> HttpResponse)

  // ------------------------------------------------------------- constants

  const Usage := "Please provide at least one password as an argument!"
  const MissingWarning := "Warning: 'common_passwords.txt' not found. Skipping local common password check."
  const ReadError := "Error reading 'common_passwords.txt'. Skipping local check."
  const ApiRange := "https://api.pwnedpasswords.com/range/"
  /** `"-" * 60`. */
  const Separator := Repeat('-', 60)

  /** A report row: password, status and details in columns of 20 and 15;
      a longer password or status widens its column. */
  function FormatRow(password: string, status: string, details: string): (row: string)
    ensures |row| == (if |password| < 20 then 20 else |password|) + 3 +
      (if |status| < 15 then 15 else |status|) + 3 + |details|
  {
    LJust(password, 20) + " | " + LJust(status, 15) + " | " + details
  }

  /** The header line, printed after an empty line. */
  const Header := "\n" + FormatRow("Password", "Status", "Details")

  // ------------------------------------------------------ local lookup

  /** What check_common_password prints: a warning when the file cannot be
      used, nothing otherwise. */
  function CommonLog(file: CommonFile): (log: seq<string>)
    ensures |log| <= 1
    ensures log == [] <==> file.Readable?
  {
    match file
    case Missing => [MissingWarning]
    case Unreadable => [ReadError]
    case Readable(_) => []
  }

  /** check_common_password: membership in the set of the file's lines; a
      file that cannot be used counts as a miss. */
  function CheckCommonPassword(password: string, file: CommonFile): (r: (bool, seq<string>))
    ensures r.0 <==> file.Readable? && password in SplitLines(file.text)
    ensures r.1 == CommonLog(file)
  {
    match file
    case Readable(text) => (password in SplitLines(text), [])
    case _ => (false, CommonLog(file))
  }

  // ------------------------------------------------------- remote lookup

  /** request_api_data: the GET of the range URL for a prefix; any status
      other than 200 raises. */
  function RequestApiData(query: string, get: string -> HttpResponse): (r: Result<string>)
    ensures r.Ok? <==> get(ApiRange + query).status == 200
    ensures r.Ok? ==> r.value == get(ApiRange + query).text
    ensures r.Err? ==> r.error == RemoteServiceError(get(ApiRange + query).status)
  {
    var res := get(ApiRange + query);
    if res.status != 200 then Err(RemoteServiceError(res.status)) else Ok(res.text)
  }

  /** The upper-cased digest of a password, split into prefix and tail. */
  function DigestParts(password: string, sha1: string -> HexDigest): (string, string) {
    SplitDigest(Upper(sha1(password)))
  }

  /** The one URL pwned_api_check fetches: only the 5-character prefix of
      the digest leaves the machine. */
  function RangeUrl(password: string, sha1: string -> HexDigest): (url: string)
    ensures |url| == |ApiRange| + 5 && url[..|ApiRange|] == ApiRange
    ensures url[|ApiRange|..] == Upper(sha1(password))[..5]
  {
    ApiRange + DigestParts(password, sha1).0
  }

  /** pwned_api_check: fetch the range of the prefix and scan it for the tail. */
  function PwnedApiCheck(password: string, o: Oracles): (r: Result<Count>)
    ensures o.get(RangeUrl(password, o.sha1)).status != 200 ==>
      r == Err(RemoteServiceError(o.get(RangeUrl(password, o.sha1)).status))
    ensures o.get(RangeUrl(password, o.sha1)).status == 200 ==>
      r == Scan(SplitLines(o.get(RangeUrl(password, o.sha1)).text), Upper(o.sha1(password))[5..])
  {
    var (prefix, tail) := DigestParts(password, o.sha1);
    assert tail == Upper(o.sha1(password))[5..];
    match RequestApiData(prefix, o.get)
    case Err(e) => Err(e)
    case Ok(body) => Scan(SplitLines(body), tail)
  }

  // ------------------------------------------------------ classification

  /** The status of one password. */
  datatype Status = Common | Breached(count: string) | Clean

  function Label(st: Status): string {
    match st
    case Common => "Common password"
    case Breached(_) => "Data breach"
    case Clean => "Non-breached password"
  }

  function Details(st: Status): string {
    match st
    case Common => "Found in common_passwords list. Consider changing it!"
    case Breached(count) => "Found " + count + " times in breaches. Consider changing your password!"
    case Clean => "Not found in breach or common_passwords list."
  }

  /** The row printed for a password of that status (print adds one more
      line break after it). */
  function Row(password: string, st: Status): (row: string)
    ensures |row| > |password| && row[..|password|] == password
    ensures |row| > |Details(st)| && row[|row| - 1 - |Details(st)|..] == Details(st) + "\n"
  {
    RowLayout(password, Label(st), Details(st));
    FormatRow(password, Label(st), Details(st)) + "\n"
  }

  /** Python truthiness of the count: the integer 0 and the empty string are
      false, every other string, "0" included, is true. */
  function Truthy(count: Count): (b: bool)
    ensures b <==> count != NotFound && count != Found("")
  {
    count.Found? && count.text != ""
  }

  /** What checking one (already stripped) password does: what it prints
      before its row, which URLs it fetches, and its status or the exception
      that ends the run. */
  datatype Check = Check(log: seq<string>, requests: seq<string>, outcome: Result<Status>)

  function Classify(password: string, o: Oracles): (c: Check)
    ensures c.log == CommonLog(o.common)
    ensures c.requests == if c.outcome == Ok(Common) then [] else [RangeUrl(password, o.sha1)]
  {
    var (hit, log) := CheckCommonPassword(password, o.common);
    if hit then Check(log, [], Ok(Common))
    else
      var requests := [RangeUrl(password, o.sha1)];
      match PwnedApiCheck(password, o)
      case Err(e) => Check(log, requests, Err(e))
      case Ok(count) => Check(log, requests, Ok(if Truthy(count) then Breached(count.text) else Clean))
  }

  function IsCommon(password: string, o: Oracles): bool {
    CheckCommonPassword(password, o.common).0
  }

  /** A local hit is reported as common and nothing is fetched. */
  lemma ClassifyCommonIff(password: string, o: Oracles)
    ensures Classify(password, o).outcome == Ok(Common) <==> IsCommon(password, o)
    ensures IsCommon(password, o) <==> Classify(password, o).requests == []
  {
  }

  /** With a local hit, neither the hash nor the network has any influence. */
  lemma CommonIgnoresRemote(password: string, o: Oracles, o': Oracles)
    requires o.common == o'.common && IsCommon(password, o)
    ensures Classify(password, o) == Classify(password, o')
  {
  }

  /** "Data breach" exactly for a local miss whose count is a non-empty
      string, whatever digits it holds. */
  lemma ClassifyBreachedIff(password: string, o: Oracles, count: string)
    ensures Classify(password, o).outcome == Ok(Breached(count)) <==>
      !IsCommon(password, o) && PwnedApiCheck(password, o) == Ok(Found(count)) && count != ""
  {
  }

  /** "Non-breached" exactly for a local miss whose scan found no line or a
      line with an empty count. */
  lemma ClassifyCleanIff(password: string, o: Oracles)
    ensures Classify(password, o).outcome == Ok(Clean) <==>
      !IsCommon(password, o) && (PwnedApiCheck(password, o) == Ok(NotFound) || PwnedApiCheck(password, o) == Ok(Found("")))
  {
  }

  /** A failed request or a malformed line ends the check of that password
      with the exception, after one fetch. */
  lemma ClassifyRaisesIff(password: string, o: Oracles, e: Error)
    ensures Classify(password, o).outcome == Err(e) <==>
      !IsCommon(password, o) && PwnedApiCheck(password, o) == Err(e)
  {
  }

  /** A row is the password padded with spaces to 20 columns, " | ", the
      status padded with spaces to 15 columns, " | " and the details; no
      column is ever truncated. */
  lemma RowLayout(password: string, status: string, details: string)
    ensures var row := FormatRow(password, status, details);
      var w := if |password| < 20 then 20 else |password|;
      var ws := if |status| < 15 then 15 else |status|;
      |row| == w + 3 + ws + 3 + |details| &&
      row[..|password|] == password &&
      (forall k :: |password| <= k < w ==> row[k] == ' ') &&
      row[w..w + 3] == " | " &&
      row[w + 3..w + 3 + |status|] == status &&
      (forall k :: w + 3 + |status| <= k < w + 3 + ws ==> row[k] == ' ') &&
      row[w + 3 + ws..w + 6 + ws] == " | " &&
      row[w + 6 + ws..] == details
  {
    var pad := LJust(password, 20);
    var spad := LJust(status, 15);
    var row := FormatRow(password, status, details);
    var w, ws := |pad|, |spad|;
    assert row == pad + " | " + spad + " | " + details;
    assert row[..w] == pad;
    assert row[w..w + 3] == " | ";
    assert row[w + 3..w + 3 + ws] == spad;
    assert row[w + 3 + ws..w + 6 + ws] == " | ";
    assert row[w + 6 + ws..] == details;
    assert row[w + 3..w + 3 + |status|] == spad[..|status|];
    forall k | w + 3 + |status| <= k < w + 3 + ws ensures row[k] == ' ' {
      assert row[k] == spad[k - w - 3];
    }
  }

  /** The breach details carry the count text as returned by the scan. */
  lemma DetailsCarryCount(count: string)
    ensures Details(Breached(count))[6..6 + |count|] == count
  {
  }

  // --------------------------------------------------------------- a run

  /** What a run prints, which URLs it fetches, and how it ends. */
  datatype Exit = Returned(code: int) | Raised(error: Error)
  datatype Trace = Trace(out: seq<string>, requests: seq<string>, exit: Exit)

  /** What checking one argument of `main` does: what it prints (the file
      warning, if any, then the row, unless the check raises), and which URLs
      it fetches. */
  datatype Item = Item(log: seq<string>, requests: seq<string>, row: Result<string>)

  function CheckArg(arg: string, o: Oracles): (it: Item)
    ensures it.log == CommonLog(o.common)
    ensures it.requests == Classify(Strip(arg), o).requests
    ensures it.row.Ok? <==> Classify(Strip(arg), o).outcome.Ok?
    ensures it.row.Ok? ==> it.row.value == Row(Strip(arg), Classify(Strip(arg), o).outcome.value)
    ensures it.row.Err? ==> it.row.error == Classify(Strip(arg), o).outcome.error
  {
    var password := Strip(arg);
    var c := Classify(password, o);
    match c.outcome
    case Ok(st) => Item(c.log, c.requests, Ok(Row(password, st)))
    case Err(e) => Item(c.log, c.requests, Err(e))
  }

  function Items(args: seq<string>, o: Oracles): (items: seq<Item>)
    ensures |items| == |args|
  {
    seq(|args|, i requires 0 <= i < |args| => CheckArg(args[i], o))
  }

  /** The partial trace of the loop of `main`, without header; `failure` is
      the exception that stopped it, if any. */
  datatype Progress = Progress(out: seq<string>, requests: seq<string>, failure: Result<()>)

  /** The loop of `main` over the checked arguments, one after the other;
      after an exception nothing more happens. */
  function Process(items: seq<Item>): Progress
  {
    if items == [] then Progress([], [], Ok(()))
    else
      var before := Process(items[..|items| - 1]);
      var it := items[|items| - 1];
      if before.failure.Err? then before
      else
        match it.row
        case Err(e) => Progress(before.out + it.log, before.requests + it.requests, Err(e))
        case Ok(row) => Progress(before.out + it.log + [row], before.requests + it.requests, Ok(()))
  }

  /** main(args) as a function of its arguments and oracles. */
  function Behaviour(args: seq<string>, o: Oracles): (t: Trace)
    ensures t.exit == Returned(1) <==> args == []
    ensures args != [] ==> |t.out| >= 2 && t.out[..2] == [Header, Separator]
    ensures t.exit.Raised? ==>
      exists i :: 0 <= i < |args| && Classify(Strip(args[i]), o).outcome == Err(t.exit.error)
  {
    if args == [] then Trace([Usage], [], Returned(1))
    else
      var items := Items(args, o);
      var p := Process(items);
      ProcessRaisedBy(items);
      assert p.failure.Err? ==> exists i :: 0 <= i < |args| && items[i] == CheckArg(args[i], o) && items[i].row == Err(p.failure.error);
      Trace([Header, Separator] + p.out, p.requests,
            if p.failure.Err? then Raised(p.failure.error) else Returned(0))
  }

  /** pwned_api_check: upper-case the digest, split it, fetch the range of
      the prefix (the delay before the fetch has no logical effect) and scan
      the answer for the tail. */
  method QueryRange(password: string, o: Oracles) returns (count: Result<Count>)
    ensures count == PwnedApiCheck(password, o)
  {
    var (first5, tail) := DigestParts(password, o.sha1);
    var response := RequestApiData(first5, o.get);
    if response.Err? {
      return Err(response.error);
    }
    count := GetPasswordLeaksCount(response.value, tail);
  }

  /** One pass of the loop body of `main`: strip the argument, assume it is
      not breached, then let the local lookup or the range query change
      `status` and `details`; gives what is printed before the row, the URLs
      fetched, and the row, or the exception that escapes. */
  method ReportPassword(arg: string, o: Oracles) returns (log: seq<string>, requests: seq<string>, row: Result<string>)
    ensures Item(log, requests, row) == CheckArg(arg, o)
  {
    var password := Strip(arg);
    ghost var c := Classify(password, o);
    var status, details := Label(Clean), Details(Clean);
    var (isCommon, warnings) := CheckCommonPassword(password, o.common);
    log, requests := warnings, [];
    if isCommon {
      status, details := Label(Common), Details(Common);
      assert c.outcome == Ok(Common);
    } else {
      requests := [RangeUrl(password, o.sha1)];
      var count := QueryRange(password, o);
      if count.Err? {
        assert c.outcome == Err(count.error);
        return log, requests, Err(count.error);
      }
      if Truthy(count.value) {
        var st := Breached(count.value.text);
        status, details := Label(st), Details(st);
        assert c.outcome == Ok(st);
      } else {
        assert c.outcome == Ok(Clean);
      }
    }
    row := Ok(FormatRow(password, status, details) + "\n");
  }

  /** The `for` loop of `main`: check and report each password in order,
      until a check raises. */
  method CheckAll(args: seq<string>, o: Oracles) returns (out: seq<string>, requests: seq<string>, failure: Result<()>)
    ensures Progress(out, requests, failure) == Process(Items(args, o))
  {
    ghost var items := Items(args, o);
    out, requests := [], [];
    var i := 0;
    while i < |args|
      invariant 0 <= i <= |args|
      invariant Process(items[..i]) == Progress(out, requests, Ok(()))
    {
      var log, fetched, row := ReportPassword(args[i], o);
      ProcessStep(items, i);
      assert items[i] == Item(log, fetched, row);
      out, requests := out + log, requests + fetched;
      if row.Err? {
        StopAt(items, i);
        return out, requests, Err(row.error);
      }
      out := out + [row.value];
      i := i + 1;
    }
    assert items[..i] == items;
    failure := Ok(());
  }

  /** main(args): print the usage line and return 1 without arguments;
      otherwise print the header and the separator, run the loop, and return
      0 unless an exception escapes. */
  method Run(args: seq<string>, o: Oracles) returns (out: seq<string>, requests: seq<string>, exit: Exit)
    ensures Trace(out, requests, exit) == Behaviour(args, o)
    ensures args == [] ==> out == [Usage] && requests == [] && exit == Returned(1)
    ensures args != [] ==> out[..2] == [Header, Separator] && exit != Returned(1)
  {
    if |args| == 0 {
      out, requests, exit := [Usage], [], Returned(1);
      return;
    }
    out := [Header, Separator];
    var printed, failure;
    printed, requests, failure := CheckAll(args, o);
    out := out + printed;
    exit := if failure.Err? then Raised(failure.error) else Returned(0);
  }

  /** One more pass of the loop of `main`, after passes that all completed. */
  lemma ProcessStep(items: seq<Item>, i: nat)
    requires i < |items| && Process(items[..i]).failure.Ok?
    ensures var before := Process(items[..i]);
      var it := items[i];
      Process(items[..i + 1]) ==
        if it.row.Err? then Progress(before.out + it.log, before.requests + it.requests, Err(it.row.error))
        else Progress(before.out + it.log + [it.row.value], before.requests + it.requests, Ok(()))
  {
    assert items[..i + 1][..i] == items[..i];
  }

  // ------------------------------------------------------ run properties

  /** Once a check has raised, later passwords are neither printed nor
      fetched. */
  lemma {:induction false} ProcessStops(xs: seq<Item>, ys: seq<Item>)
    requires Process(xs).failure.Err?
    ensures Process(xs + ys) == Process(xs)
    decreases |ys|
  {
    if ys == [] {
      assert xs + ys == xs;
    } else {
      var zs := xs + ys;
      ProcessStops(xs, ys[..|ys| - 1]);
      assert zs[..|zs| - 1] == xs + ys[..|ys| - 1];
    }
  }

  lemma StopAt(items: seq<Item>, i: nat)
    requires i < |items|
    requires Process(items[..i + 1]).failure.Err?
    ensures Process(items) == Process(items[..i + 1])
  {
    ProcessStops(items[..i + 1], items[i + 1..]);
    assert items[..i + 1] + items[i + 1..] == items;
  }

  /** The exception that stops the loop is the one a password's check
      raised. */
  lemma {:induction false} ProcessRaisedBy(items: seq<Item>)
    ensures Process(items).failure.Err? ==>
      exists i :: 0 <= i < |items| && items[i].row == Err(Process(items).failure.error)
  {
    if items != [] {
      var init := items[..|items| - 1];
      ProcessRaisedBy(init);
      if Process(init).failure.Err? {
        var i :| 0 <= i < |init| && init[i].row == Err(Process(init).failure.error);
        assert items[i] == init[i];
      }
    }
  }

  /** The loop completes exactly when no password's check raises. */
  lemma {:induction false} ProcessCompletesIff(items: seq<Item>)
    ensures Process(items).failure.Ok? <==>
      forall i :: 0 <= i < |items| ==> items[i].row.Ok?
  {
    if items != [] {
      var init := items[..|items| - 1];
      ProcessCompletesIff(init);
      assert forall i :: 0 <= i < |init| ==> init[i] == items[i];
    }
  }

  /** Every check completes and prints `log` before its row. */
  predicate AllComplete(items: seq<Item>, log: seq<string>) {
    forall i :: 0 <= i < |items| ==> items[i].row.Ok? && items[i].log == log
  }

  lemma {:induction false} ProcessLength(items: seq<Item>, log: seq<string>)
    requires AllComplete(items, log)
    ensures Process(items).failure.Ok?
    ensures |Process(items).out| == |items| * (|log| + 1)
  {
    if items != [] {
      var n := |items| - 1;
      assert AllComplete(items[..n], log) by {
        forall j | 0 <= j < n ensures items[..n][j] == items[j] { }
      }
      ProcessLength(items[..n], log);
      assert |Process(items).out| == n * (|log| + 1) + |log| + 1;
    }
  }

  /** The i-th block of `out` is `log` followed by `row`. */
  predicate PrintedAt(out: seq<string>, log: seq<string>, i: nat, row: string) {
    var at := i * (|log| + 1);
    at + |log| < |out| && out[at..at + |log|] == log && out[at + |log|] == row
  }

  lemma {:induction false} ProcessRowAt(items: seq<Item>, log: seq<string>, i: nat)
    requires AllComplete(items, log) && i < |items|
    ensures PrintedAt(Process(items).out, log, i, items[i].row.value)
  {
    var n := |items| - 1;
    var init := items[..n];
    assert AllComplete(init, log) by {
      forall j | 0 <= j < n ensures init[j] == items[j] { }
    }
    ProcessLength(init, log);
    var before := Process(init).out;
    var out := Process(items).out;
    assert out == before + log + [items[n].row.value];
    var at := i * (|log| + 1);
    if i < n {
      ProcessRowAt(init, log, i);
      assert init[i] == items[i];
      assert out[at..at + |log|] == before[at..at + |log|];
    } else {
      assert at == |before|;
    }
  }

  /** When every check completes and each prints the same warnings `log`,
      the loop prints, for each password in input order, `log` and then
      exactly one row. */
  lemma ProcessRows(items: seq<Item>, log: seq<string>)
    requires AllComplete(items, log)
    ensures Process(items).failure.Ok?
    ensures |Process(items).out| == |items| * (|log| + 1)
    ensures forall i :: 0 <= i < |items| ==> PrintedAt(Process(items).out, log, i, items[i].row.value)
  {
    ProcessLength(items, log);
    forall i | 0 <= i < |items| ensures PrintedAt(Process(items).out, log, i, items[i].row.value) {
      ProcessRowAt(items, log, i);
    }
  }

  /** Exit codes: 1 exactly for no arguments, 0 exactly when every check
      completes, otherwise the first exception escapes. */
  lemma ExitCodes(args: seq<string>, o: Oracles)
    ensures Behaviour(args, o).exit == Returned(1) <==> args == []
    ensures Behaviour(args, o).exit == Returned(0) <==>
      args != [] && forall i :: 0 <= i < |args| ==> Classify(Strip(args[i]), o).outcome.Ok?
  {
    var items := Items(args, o);
    ProcessCompletesIff(items);
    assert forall i :: 0 <= i < |args| ==> items[i] == CheckArg(args[i], o);
  }

  /** A completed run prints the header, 60 dashes, and then one row per
      argument in order, each preceded by the file warning if there is one. */
  lemma CompletedReport(args: seq<string>, o: Oracles)
    requires args != []
    requires forall i :: 0 <= i < |args| ==> Classify(Strip(args[i]), o).outcome.Ok?
    ensures Behaviour(args, o).exit == Returned(0)
    ensures var out := Behaviour(args, o).out;
      |out| == 2 + |args| * (|CommonLog(o.common)| + 1) && out[..2] == [Header, Separator] &&
      forall i :: 0 <= i < |args| ==>
        PrintedAt(out[2..], CommonLog(o.common), i, Row(Strip(args[i]), Classify(Strip(args[i]), o).outcome.value))
  {
    var items := Items(args, o);
    var log := CommonLog(o.common);
    var p := Process(items);
    assert AllComplete(items, log) by {
      forall i | 0 <= i < |args| ensures items[i].row.Ok? && items[i].log == log {
        assert items[i] == CheckArg(args[i], o);
      }
    }
    ProcessRows(items, log);
    var out := Behaviour(args, o).out;
    assert out == [Header, Separator] + p.out;
    assert out[2..] == p.out;
    forall i | 0 <= i < |args|
      ensures PrintedAt(out[2..], log, i, Row(Strip(args[i]), Classify(Strip(args[i]), o).outcome.value))
    {
      assert items[i] == CheckArg(args[i], o);
    }
  }

  /** A loop that raises stops at the first item whose check raises: the
      earlier ones are reported, that one prints only its file warning and
      makes its request, later ones do nothing. */
  lemma ProcessAbortAt(items: seq<Item>, k: nat)
    requires k < |items|
    requires forall i :: 0 <= i < k ==> items[i].row.Ok?
    requires items[k].row.Err?
    ensures var before := Process(items[..k]);
      Process(items) == Progress(before.out + items[k].log, before.requests + items[k].requests, Err(items[k].row.error))
  {
    var init := items[..k];
    ProcessCompletesIff(init);
    assert items[..k + 1][..k] == init;
    StopAt(items, k);
  }

  lemma AbortProcess(args: seq<string>, o: Oracles, k: nat, e: Error)
    requires k < |args|
    requires forall i :: 0 <= i < k ==> Classify(Strip(args[i]), o).outcome.Ok?
    requires Classify(Strip(args[k]), o).outcome == Err(e)
    ensures var before := Process(Items(args[..k], o));
      Process(Items(args, o)) == Progress(
        before.out + CommonLog(o.common),
        before.requests + [RangeUrl(Strip(args[k]), o.sha1)],
        Err(e))
  {
    var items := Items(args, o);
    assert items[..k] == Items(args[..k], o);
    forall i | 0 <= i < k ensures items[i].row.Ok? {
      assert items[i] == CheckArg(args[i], o);
    }
    assert items[k] == CheckArg(args[k], o);
    ProcessAbortAt(items, k);
  }

  /** A run that raises stops at the first password whose check raises: the
      earlier ones are reported, that one prints only the file warning and
      makes its one request, and later ones print and fetch nothing. */
  lemma AbortAtFirstFailure(args: seq<string>, o: Oracles, k: nat, e: Error)
    requires k < |args|
    requires forall i :: 0 <= i < k ==> Classify(Strip(args[i]), o).outcome.Ok?
    requires Classify(Strip(args[k]), o).outcome == Err(e)
    ensures var before := Process(Items(args[..k], o));
      Behaviour(args, o) == Trace(
        [Header, Separator] + (before.out + CommonLog(o.common)),
        before.requests + [RangeUrl(Strip(args[k]), o.sha1)],
        Raised(e))
  {
    AbortProcess(args, o, k, e);
  }
}
