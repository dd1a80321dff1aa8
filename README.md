# passcheck, modelled in Dafny

`passcheck.py` checks passwords given on the command line. For each
password it first looks in a local list, `common_passwords.txt`. If the
password is not there, it queries the Have I Been Pwned range API. Only the
first five hex digits of the password's SHA-1 digest are sent. The answer
lists `SUFFIX:COUNT` lines, and the program searches it for the rest of the
digest. It prints one report row per password and returns an exit code.

The model keeps the program's logic and treats its dependencies as oracles:

- `outcomes.dfy` (`Outcomes`): the two exceptions that can escape and end
  the run. One is the `RuntimeError` raised for a non-200 answer. The other
  is the `ValueError` raised when a response line does not unpack into two
  fields.
- `text.dfy` (`Text`): the Python string built-ins the program relies on.
  These are `str.strip` with Python's whitespace set, the `:<width`
  left-justification, `str.split` on one character, and `str.splitlines`
  with all of Python's line boundaries, where `\r\n` counts as one. It
  also has `"-" * 60`.
- `digest.dfy` (`Digest`): `hexdigest().upper()` and the split into a
  5-character prefix and a 35-character tail.
- `range.dfy` (`Range`): `get_password_leaks_count`. It is specified by the
  recursive function `Scan` and implemented by the method
  `GetPasswordLeaksCount`, whose loop returns early like the source's `for`
  loop. The result keeps the source's distinction between a found count,
  which is a string, and the integer `0`: they are `Found(text)` and
  `NotFound`.
- `passcheck.dfy` (`PassCheck`): `check_common_password`,
  `request_api_data`, `pwned_api_check`, the classification, the row
  format and `main`. `main` is specified by the function `Behaviour` and
  implemented by the method `Run`. `Run` prints the header and calls
  `CheckAll`, the `for` loop, specified by the function `Process`. Each
  pass calls `ReportPassword`, the loop body. It reassigns `status` and
  `details` as the source does, and calls `QueryRange`, the body of
  `pwned_api_check`.

Oracles (the `Oracles` datatype):

- The password file is `Missing`, `Unreadable`, or `Readable(text)`.
- `sha1` is hashlib's SHA-1 hexdigest of a password's UTF-8 bytes. It is
  40 lower-case hex digits.
- `get` maps a URL to the status and text of the HTTP answer.

A run's observable behaviour is a `Trace` with three parts:

- the strings printed, one per `print` call, without `print`'s own line
  break;
- the URLs fetched, in order;
- the exit: `Returned(code)`, or `Raised(error)` for an exception that
  escapes `main`.

Three behaviours of the code that are easy to misread:

- The scan splits a line on every `:` and raises `ValueError` unless there
  are exactly two fields. It does not split on the first colon only, and it
  does not skip malformed lines.
- The count is returned as text. "Data breach" is chosen by Python
  truthiness: `"0"` counts as a breach and the empty string does not. The
  program never compares the count with zero.
- The common-password file is read again for every password, and each
  failed read prints its warning again.

## Model

| member | source | states |
|---|---|---|
| Text.Strip | passcheck.py:57 | the result is a contiguous piece of the argument, everything around it is whitespace, and it neither starts nor ends with whitespace |
| Text.StripIdempotent | passcheck.py:57 | stripping an already stripped password changes nothing |
| Text.LJust | passcheck.py:53 | `:<width` pads with spaces to the width, keeps the text as a prefix and never truncates |
| Text.Repeat | passcheck.py:54 | `"-" * 60` has length 60 and every character is the dash |
| Text.Split | passcheck.py:18 | `split(':')` gives at least one field and no field contains the separator |
| Text.JoinSplit | passcheck.py:18 | joining the fields with the separator gives back the line, so nothing is lost by splitting |
| Text.SplitJoin | passcheck.py:18 | splitting a join of separator-free fields gives back exactly those fields |
| Text.SplitLines | passcheck.py:18 | `splitlines()` gives no line for empty text, and no line contains a line boundary |
| Text.SplitLinesPrefix | passcheck.py:18 | text made of break-free lines, each ended by `\n` or `\r\n`, and then any rest, reads as those lines followed by whatever the rest reads as |
| Text.SplitLinesTerminated | passcheck.py:18 | reading back lines written with `\n` or `\r\n` terminators gives the same lines, empty ones included |
| Text.SplitLinesSeparated | passcheck.py:18 | reading back lines separated by `\n` or `\r\n`, with a non-empty last line and no final terminator, gives the same lines |
| Digest.Upper | passcheck.py:26 | `upper()` keeps the 40 digits, turns each letter `a`-`f` into its capital (code point minus 32) and yields upper-case hex |
| Digest.UpperInjective | passcheck.py:26 | two digests equal after `upper()` were equal before, so the case-sensitive comparison of tails loses nothing |
| Digest.SplitDigest | passcheck.py:27 | the prefix has 5 and the tail 35 upper-case hex characters, and prefix + tail is the digest |
| Range.Scan | passcheck.py:17-22 | an error names a line of the response that does not unpack into two fields; a found count comes from a line whose fields are exactly the suffix and that count |
| Range.GetPasswordLeaksCount | passcheck.py:17-22 | the loop with early return computes the scan of the body's lines |
| Range.ScanSkipsPrefix | passcheck.py:19-20 | lines that unpack and do not match have no influence on the result |
| Range.ScanFirstMatch | passcheck.py:18-21 | the result is the count of the first line whose hash part equals the suffix exactly |
| Range.ScanFirstMalformed | passcheck.py:18-19 | a line that does not unpack into two fields raises, as soon as the scan reaches it |
| Range.ScanNotFoundIff | passcheck.py:19-22 | the result is `0` exactly when every line unpacks and none matches |
| Range.ScanFoundWitness | passcheck.py:19-21 | a found count comes from a matching line with only stepped-over lines before it |
| Range.ScanAppend | passcheck.py:18-21 | laziness: lines after a match or a failing line never affect the result |
| Range.EntryFields | passcheck.py:18 | a `SUFFIX:COUNT` line without other colons unpacks into exactly the suffix and the count |
| Range.ScanEncodedResponse | passcheck.py:17-22 | scanning a well-formed response gives what the reference lookup of the first pair with that suffix gives, with `\n` or `\r\n` line ends and whether or not the last line is terminated |
| PassCheck.CommonLog | passcheck.py:40-45 | a warning line is printed exactly when the file is missing or unreadable |
| PassCheck.CheckCommonPassword | passcheck.py:35-45 | the password is common exactly when the file was read and one of its lines equals it; a missing or unreadable file means not common |
| PassCheck.RequestApiData | passcheck.py:10-15 | the body is returned exactly on status 200; any other status raises with that status |
| PassCheck.RangeUrl | passcheck.py:11 | the one URL fetched is the range endpoint followed by the first five characters of the upper-cased digest |
| PassCheck.PwnedApiCheck | passcheck.py:24-33 | the answer scanned is the one fetched from the range URL of the upper-cased digest's prefix, and it is scanned for the digest's last 35 characters; a status other than 200 raises with that status |
| PassCheck.QueryRange | passcheck.py:24-33 | the body of `pwned_api_check` computes what `PwnedApiCheck` specifies |
| PassCheck.Truthy | passcheck.py:68 | `if count:` is false for exactly two values: the integer `0` and the empty string |
| PassCheck.FormatRow | passcheck.py:73 | the row's length is the password column (at least 20), the status column (at least 15), the details and two separators of 3 characters |
| PassCheck.Row | passcheck.py:73 | the printed row starts with the password and ends with the status's details and the extra line break |
| PassCheck.Classify | passcheck.py:58-70 | the common check's warnings are printed; nothing is fetched for a common password, and exactly the range URL is fetched otherwise |
| PassCheck.ClassifyCommonIff | passcheck.py:62-64 | the status is "Common password" exactly when the local lookup hits, which is exactly when nothing is fetched |
| PassCheck.CommonIgnoresRemote | passcheck.py:61-67 | for a local hit, the hash and the network have no influence on the result |
| PassCheck.ClassifyBreachedIff | passcheck.py:66-70 | "Data breach" exactly for a local miss whose scan found a non-empty count, `"0"` included |
| PassCheck.ClassifyCleanIff | passcheck.py:58-70 | "Non-breached password" exactly for a local miss whose scan found nothing or an empty count |
| PassCheck.ClassifyRaisesIff | passcheck.py:67 | the check of a password raises exactly when it missed locally and the request or the scan raised |
| PassCheck.RowLayout | passcheck.py:73 | a row is the password padded with spaces to 20 columns, a space, a bar and a space, the status padded with spaces to 15 columns, a space, a bar and a space, and the details; no column is truncated |
| PassCheck.DetailsCarryCount | passcheck.py:70 | the breach details embed the count text exactly as it was scanned |
| PassCheck.CheckArg | passcheck.py:57-70 | each argument is stripped before the lookups and the row; the row appears exactly when the check does not raise |
| PassCheck.ReportPassword | passcheck.py:57-73 | the loop body, with its reassignments of `status` and `details`, prints, fetches and formats what the classification says |
| PassCheck.Behaviour | passcheck.py:47-75 | the exit code is 1 exactly when there are no arguments; otherwise the header and the separator come first, and an escaping exception is the one some password's check raised |
| PassCheck.CheckAll | passcheck.py:56-73 | the loop prints, fetches and stops as `Process` specifies for the checked arguments |
| PassCheck.Run | passcheck.py:47-75 | `main` behaves as `Behaviour`: with no arguments it prints only the usage line and returns 1; otherwise it prints the header and separator first and never returns 1 |
| PassCheck.ProcessStops | passcheck.py:56-67 | once a check has raised, later passwords are neither printed nor fetched |
| PassCheck.ProcessRaisedBy | passcheck.py:56-73 | the exception that stops the loop is one that some password's check raised |
| PassCheck.ProcessCompletesIff | passcheck.py:56-75 | the loop completes exactly when no password's check raises |
| PassCheck.ProcessLength | passcheck.py:56-73 | a completed loop prints the warnings and one row for each password, and nothing else |
| PassCheck.ProcessRowAt | passcheck.py:56-73 | the i-th block of the loop's output is the file warning, if any, then the row of the i-th password |
| PassCheck.ProcessRows | passcheck.py:56-73 | a completed loop prints one block per password, in input order |
| PassCheck.ProcessAbortAt | passcheck.py:56-73 | a loop that raises stops at the first raising check, after that password's warning and request |
| PassCheck.ExitCodes | passcheck.py:47-75 | the exit code is 1 exactly for no arguments, and 0 exactly when there are arguments and no check raises |
| PassCheck.CompletedReport | passcheck.py:53-75 | a completed run prints the header, the 60-dash separator, then for each argument in order the warning, if any, and exactly one row |
| PassCheck.AbortProcess | passcheck.py:56-73 | when the k-th check is the first to raise, the loop's output, requests and exception are those of the first k passwords followed by the k-th password's warning and request |
| PassCheck.AbortAtFirstFailure | passcheck.py:47-73 | a run whose k-th check is the first to raise prints the earlier rows and the k-th warning, fetches up to the k-th URL, and ends with that exception |

## Left out

- The HTTP GET (passcheck.py:12) is an oracle from URL to status and text. Transport-level exceptions raised by `requests.get` itself, such as connection errors and timeouts, are not modelled.
- The SHA-1 computation and the UTF-8 encoding (passcheck.py:26) are an oracle that yields 40 lower-case hex digits.
- `time.sleep(API_REQUEST_DELAY)` (passcheck.py:30) has no logical effect and is not modelled. The fetch it precedes is recorded in the trace.
- Opening and reading `common_passwords.txt` (passcheck.py:37-38) is an oracle that gives the file's text, or says it is missing or unreadable. A file that is not valid UTF-8 raises `UnicodeDecodeError`, which the source does not catch; that case is not modelled. The file is also assumed not to change during a run.
- `sys.argv` and `sys.exit` (passcheck.py:77-78) are not modelled: `Run` takes the arguments and returns the exit code or the escaping exception.
- Digest.Upper: handles only the ASCII letters, not the whole of `str.upper`. This is enough for a hex digest.
- Text.Strip and Text.SplitLines: whitespace and line boundaries are decided per Unicode code point, as Python does. Dafny strings hold no unpaired surrogates, so those cannot be represented.
