/** Port negotiation for local static-file servers
    (`maybe_adjust_port_in_command`).

    The source recognises `python\s+-m\s+http\.server(\s+(\d+))?` with
    `re.search`. `MatchAt`, `PortGroup` and `Search` compute that match the
    way the regular-expression engine does (leftmost start, greedy runs), and
    `Matches`, `GroupAt` describe it declaratively; the lemmas below connect
    the two. Whether a port is busy and which port is free come from the
    operating system, so they are parameters here. */
module PortNegotiator {
  import opened Wrappers
  import opened Text

  /** The port `http.server` binds when none is given. */
  const DefaultPort: nat := 8000

  /** `\s` restricted to ASCII: space, tab, line feed, vertical tab, form
      feed, carriage return, and the four separators 0x1C-0x1F that Python
      also counts as whitespace. */
  predicate IsSpace(c: char) { c == ' ' || '\t' <= c <= '\r' || '\U{1C}' <= c <= '\U{1F}' }

  predicate SpacesBetween(s: string, lo: nat, hi: nat) {
    lo <= hi <= |s| && forall x :: lo <= x < hi ==> IsSpace(s[x])
  }

  predicate DigitsBetween(s: string, lo: nat, hi: nat) {
    lo <= hi <= |s| && forall x :: lo <= x < hi ==> IsDigit(s[x])
  }

  /** `python\s+-m\s+http\.server` matches `s[i..b + 11]`, with `-m` at `a`
      and `http.server` at `b`. */
  predicate MatchesVia(s: string, i: nat, a: nat, b: nat) {
    OccursAt(s, "python", i) &&
    i + 6 < a && SpacesBetween(s, i + 6, a) && OccursAt(s, "-m", a) &&
    a + 2 < b && SpacesBetween(s, a + 2, b) && OccursAt(s, "http.server", b)
  }

  /** The mandatory part of the pattern matches `s[i..e]`. */
  ghost predicate Matches(s: string, i: nat, e: nat) {
    exists a: nat, b: nat :: MatchesVia(s, i, a, b) && e == b + 11
  }

  /** The pattern matches at `i`, ending at `e`, and at no index further left:
      the match `re.search` reports. */
  ghost predicate LeftmostMatch(s: string, i: nat, e: nat) {
    Matches(s, i, e) && forall j: nat, e2: nat :: j < i ==> !Matches(s, j, e2)
  }

  /** The optional group `(\s+(\d+))?` after a match ending at `e` binds, with
      the port digits at `s[k..m]`. */
  predicate GroupAt(s: string, e: nat, k: nat, m: nat) {
    e < k < m && SpacesBetween(s, e, k) && DigitsBetween(s, k, m) && (m == |s| || !IsDigit(s[m]))
  }

  /** The optional group does not bind: no whitespace-then-digit follows `e`. */
  ghost predicate NoPortGroup(s: string, e: nat) {
    forall k: nat, m: nat :: !GroupAt(s, e, k, m)
  }

  datatype Span = Span(lo: nat, hi: nat)

  /** A match: where it starts, where the mandatory part ends, and the span of
      the port digits when the optional group binds. */
  datatype ServerMatch = ServerMatch(start: nat, end: nat, port: Option<Span>)

  /** Attempt the mandatory part at index `i`; on success, its end index.
      Each `\s+` is greedy, and no backtracking can help because neither `-`
      nor `h` is whitespace. */
  function MatchAt(s: string, i: nat): Option<nat> {
    if !OccursAt(s, "python", i) then None
    else
      var a := SkipWhile(s, i + 6, IsSpace);
      if a == i + 6 || !OccursAt(s, "-m", a) then None
      else
        var b := SkipWhile(s, a + 2, IsSpace);
        if b == a + 2 || !OccursAt(s, "http.server", b) then None
        else Some(b + 11)
  }

  /** `MatchAt` succeeds exactly where the pattern matches, with the match's end. */
  lemma MatchAtCorrect(s: string, i: nat)
    ensures MatchAt(s, i).Some? ==> Matches(s, i, MatchAt(s, i).value)
    ensures forall e: nat :: Matches(s, i, e) ==> MatchAt(s, i) == Some(e)
  {
    if MatchAt(s, i).Some? {
      var a, b := MatchAtSound(s, i);
    }
    forall e: nat | Matches(s, i, e) ensures MatchAt(s, i) == Some(e) {
      var a: nat, b: nat :| MatchesVia(s, i, a, b) && e == b + 11;
      MatchAtVia(s, i, a, b);
    }
  }

  /** A successful scan has found the separators of a match. */
  lemma MatchAtSound(s: string, i: nat) returns (a: nat, b: nat)
    requires MatchAt(s, i).Some?
    ensures MatchesVia(s, i, a, b) && MatchAt(s, i) == Some(b + 11)
  {
    a := SkipWhile(s, i + 6, IsSpace);
    b := SkipWhile(s, a + 2, IsSpace);
  }

  /** The greedy scans of `MatchAt` find the separators of any match. */
  lemma MatchAtVia(s: string, i: nat, a: nat, b: nat)
    requires MatchesVia(s, i, a, b)
    ensures MatchAt(s, i) == Some(b + 11)
  {
    OccursAtHead(s, "-m", a);
    SkipWhileAt(s, i + 6, IsSpace, a);
    OccursAtHead(s, "http.server", b);
    SkipWhileAt(s, a + 2, IsSpace, b);
  }

  /** A match that starts at a given index has only one possible end. */
  lemma MatchesUnique(s: string, i: nat, e1: nat, e2: nat)
    requires Matches(s, i, e1) && Matches(s, i, e2)
    ensures e1 == e2
  {
    MatchAtCorrect(s, i);
  }

  /** The optional group after a match ending at `e`: greedy whitespace, then
      greedy digits; it binds only if a digit follows the whitespace. */
  function PortGroup(s: string, e: nat): (r: Option<Span>)
    requires e <= |s|
    ensures r.Some? ==> GroupAt(s, e, r.value.lo, r.value.hi)
    ensures r.None? ==> NoPortGroup(s, e)
  {
    var k := SkipWhile(s, e, IsSpace);
    if k == e || k == |s| || !IsDigit(s[k]) then
      assert NoPortGroup(s, e) by {
        forall k': nat, m: nat | GroupAt(s, e, k', m) ensures false {
          SkipWhileAt(s, e, IsSpace, k');
        }
      }
      None
    else
      Some(Span(k, SkipWhile(s, k, IsDigit)))
  }

  /** When the group binds, `PortGroup` reports exactly its span. */
  lemma PortGroupComplete(s: string, e: nat, k: nat, m: nat)
    requires e <= |s|
    requires GroupAt(s, e, k, m)
    ensures PortGroup(s, e) == Some(Span(k, m))
  {
    SkipWhileAt(s, e, IsSpace, k);
    SkipWhileAt(s, k, IsDigit, m);
  }

  /** `re.search(pattern, s)` restricted to start indices from `from` on. */
  function SearchFrom(s: string, from: nat): (r: Option<ServerMatch>)
    decreases |s| + 1 - from
    ensures r.Some? ==> from <= r.value.start && r.value.end <= |s|
    ensures r.Some? ==> Matches(s, r.value.start, r.value.end) && r.value.port == PortGroup(s, r.value.end)
    ensures r.Some? ==> forall j: nat, e: nat :: from <= j < r.value.start ==> !Matches(s, j, e)
    ensures r.None? ==> forall j: nat, e: nat :: from <= j ==> !Matches(s, j, e)
  {
    if from > |s| then
      None
    else
      MatchAtCorrect(s, from);
      match MatchAt(s, from)
      case Some(e) =>
        var a: nat, b: nat :| MatchesVia(s, from, a, b) && e == b + 11;
        Some(ServerMatch(from, e, PortGroup(s, e)))
      case None => SearchFrom(s, from + 1)
  }

  /** `re.search(pattern, s)`: the leftmost match, if any. */
  function Search(s: string): (r: Option<ServerMatch>)
    ensures r.None? <==> forall j: nat, e: nat :: !Matches(s, j, e)
    ensures r.Some? ==> LeftmostMatch(s, r.value.start, r.value.end) && r.value.end <= |s|
    ensures r.Some? ==> r.value.port == PortGroup(s, r.value.end)
  {
    SearchFrom(s, 0)
  }

  /** What `Search` reports, given the leftmost match. */
  lemma SearchFinds(s: string, i: nat, e: nat)
    requires LeftmostMatch(s, i, e)
    ensures Search(s) == Some(ServerMatch(i, e, PortGroup(s, e)))
  {
    var m := Search(s).value;
    MatchesUnique(s, i, e, m.end);
  }

  /** CPython's default limit (`sys.get_int_max_str_digits()`, 3.11 and the
      security releases of 3.7-3.10) on the digits `int()` converts; a longer
      digit string raises `ValueError`. */
  const MaxIntDigits: nat := 4300

  /** The largest port number a socket address accepts. */
  const MaxPort: nat := 65535

  /** `maybe_adjust_port_in_command`: `inUse` answers "is this port taken?"
      and `freePort` is the port the operating system hands out. With an
      explicit busy port the leftmost occurrence of the port's digit text
      anywhere in the command is replaced (`re.sub` with `count=1`); with no
      port and the default busy, the free port is appended. A port text that
      `int()` refuses (more than `MaxIntDigits` digits) is caught as
      `ValueError` and leaves the command unchanged without probing. A port
      above `MaxPort` is also left unchanged: this is the corrected behaviour
      of `AdjustPortAsWritten`, where the probe raises instead. */
  function AdjustPort(command: string, inUse: nat -> bool, freePort: nat): string {
    match Search(command)
    case None => command
    case Some(m) =>
      match m.port
      case Some(g) =>
        var portText := command[g.lo..g.hi];
        if |portText| > MaxIntDigits || DigitsValue(portText) > MaxPort then command
        else if inUse(DigitsValue(portText)) then ReplaceFirst(command, portText, Decimal(freePort))
        else command
      case None =>
        if inUse(DefaultPort) then command + " " + Decimal(freePort) else command
  }

  /** `maybe_adjust_port_in_command` as written, where `None` is the
      `OverflowError` that `is_port_in_use` raises for a port above `MaxPort`.
      Neither the probe's `except socket.error` nor the caller's `except
      ValueError` catches it, so it ends the program. In every other case the
      result is that of `AdjustPort`. */
  function AdjustPortAsWritten(command: string, inUse: nat -> bool, freePort: nat): Option<string> {
    match Search(command)
    case Some(ServerMatch(_, _, Some(g))) =>
      var portText := command[g.lo..g.hi];
      if |portText| <= MaxIntDigits && DigitsValue(portText) > MaxPort then None
      else Some(AdjustPort(command, inUse, freePort))
    case _ => Some(AdjustPort(command, inUse, freePort))
  }

  /** Without the server invocation the command is left alone. */
  lemma AdjustWithoutServer(command: string, inUse: nat -> bool, freePort: nat)
    requires forall i: nat, e: nat :: !Matches(command, i, e)
    ensures AdjustPort(command, inUse, freePort) == command
  {
  }

  /** With an explicit port, the command is rewritten only when that port is
      a valid port number and busy, by replacing the first occurrence of its
      digit text. */
  lemma AdjustWithPort(command: string, inUse: nat -> bool, freePort: nat, i: nat, e: nat, k: nat, m: nat)
    requires LeftmostMatch(command, i, e) && GroupAt(command, e, k, m)
    ensures k < m <= |command|
    ensures var portText := command[k..m];
      AdjustPort(command, inUse, freePort) ==
        if |portText| > MaxIntDigits || DigitsValue(portText) > MaxPort then command
        else if inUse(DigitsValue(portText)) then ReplaceFirst(command, portText, Decimal(freePort))
        else command
  {
    SearchWithPort(command, i, e, k, m);
  }

  /** What `Search` reports when the port group binds. */
  lemma SearchWithPort(command: string, i: nat, e: nat, k: nat, m: nat)
    requires LeftmostMatch(command, i, e) && GroupAt(command, e, k, m)
    ensures Search(command) == Some(ServerMatch(i, e, Some(Span(k, m))))
  {
    SearchFinds(command, i, e);
    PortGroupComplete(command, e, k, m);
  }

  /** An explicit port that is free is left alone. */
  lemma AdjustFreeExplicitPort(command: string, inUse: nat -> bool, freePort: nat, i: nat, e: nat, k: nat, m: nat)
    requires LeftmostMatch(command, i, e) && GroupAt(command, e, k, m)
    requires !inUse(DigitsValue(command[k..m]))
    ensures AdjustPort(command, inUse, freePort) == command
  {
    AdjustWithPort(command, inUse, freePort, i, e, k, m);
  }

  /** An explicit busy port: only the leftmost occurrence `p` of the port's
      digit text changes, to the free port's decimal text. That occurrence may
      lie before the server invocation (a file name, another argument): the
      collateral rewrite of the source. */
  lemma AdjustBusyExplicitPort(command: string, inUse: nat -> bool, freePort: nat, i: nat, e: nat, k: nat, m: nat)
    returns (p: nat)
    requires LeftmostMatch(command, i, e) && GroupAt(command, e, k, m)
    requires m - k <= MaxIntDigits && DigitsValue(command[k..m]) <= MaxPort
    requires inUse(DigitsValue(command[k..m]))
    ensures p <= k && OccursAt(command, command[k..m], p)
    ensures forall q: nat :: q < p ==> !OccursAt(command, command[k..m], q)
    ensures AdjustPort(command, inUse, freePort) == command[..p] + Decimal(freePort) + command[p + (m - k)..]
  {
    AdjustWithPort(command, inUse, freePort, i, e, k, m);
    p := ReplaceFirstOfSlice(command, k, m, Decimal(freePort));
  }

  /** A port text longer than `int()` accepts: the `ValueError` is caught
      and the command is returned unchanged, busy port or not, by the source
      as written too. */
  lemma AdjustOverlongPort(command: string, inUse: nat -> bool, freePort: nat, i: nat, e: nat, k: nat, m: nat)
    requires LeftmostMatch(command, i, e) && GroupAt(command, e, k, m)
    requires m - k > MaxIntDigits
    ensures AdjustPort(command, inUse, freePort) == command
    ensures AdjustPortAsWritten(command, inUse, freePort) == Some(command)
  {
    AdjustWithPort(command, inUse, freePort, i, e, k, m);
    SearchWithPort(command, i, e, k, m);
  }

  /** A parsable port above `MaxPort` cannot be probed; the corrected
      negotiation leaves the command unchanged, as for an unparsable port,
      while the source as written ends the program. */
  lemma AdjustOutOfRangePort(command: string, inUse: nat -> bool, freePort: nat, i: nat, e: nat, k: nat, m: nat)
    requires LeftmostMatch(command, i, e) && GroupAt(command, e, k, m)
    requires m - k <= MaxIntDigits && DigitsValue(command[k..m]) > MaxPort
    ensures AdjustPort(command, inUse, freePort) == command
    ensures AdjustPortAsWritten(command, inUse, freePort).None?
  {
    AdjustWithPort(command, inUse, freePort, i, e, k, m);
    SearchWithPort(command, i, e, k, m);
  }

  /** No port given and the default port free: left alone. */
  lemma AdjustFreeDefaultPort(command: string, inUse: nat -> bool, freePort: nat, i: nat, e: nat)
    requires LeftmostMatch(command, i, e) && NoPortGroup(command, e)
    requires !inUse(DefaultPort)
    ensures AdjustPort(command, inUse, freePort) == command
  {
    SearchFinds(command, i, e);
  }

  /** No port given and the default port busy: the free port is appended as
      one more argument, so the original command is a strict prefix. */
  lemma AdjustBusyDefaultPort(command: string, inUse: nat -> bool, freePort: nat, i: nat, e: nat)
    requires LeftmostMatch(command, i, e) && NoPortGroup(command, e)
    requires inUse(DefaultPort)
    ensures AdjustPort(command, inUse, freePort) == command + " " + Decimal(freePort)
    ensures |command| < |AdjustPort(command, inUse, freePort)|
    ensures AdjustPort(command, inUse, freePort)[..|command|] == command
  {
    SearchFinds(command, i, e);
  }

  /** The collateral example, cut at the indices the proofs below use: the
      part up to `http.server`, ... (The example is spread over several
      small lemmas, each slicing the literal once, because one proof over
      the whole 37-character literal is too large for the solver.) */
  lemma CollateralHead(c: string)
    requires c == "echo " + "8080" + "; python -m http.server " + "8080"
    ensures |c| == 37 && c[..11] == "echo 8080; " && c[11..17] == "python" && c[17..18] == " "
  {
    var pre, py, rest := "echo 8080; ", "python", " -m http.server 8080";
    assert c == pre + py + rest;
  }

  /** ... the option and the module name, ... */
  lemma CollateralModule(c: string)
    requires c == "echo " + "8080" + "; python -m http.server " + "8080"
    ensures |c| == 37 && c[18..20] == "-m" && c[20..21] == " " && c[21..32] == "http.server"
  {
    var pre, dm, sp, hs, rest := "echo 8080; python ", "-m", " ", "http.server", " 8080";
    assert c == pre + dm + sp + hs + rest;
  }

  /** ... and the port argument. */
  lemma CollateralPortText(c: string)
    requires c == "echo " + "8080" + "; python -m http.server " + "8080"
    ensures |c| == 37 && c[32..33] == " " && c[33..37] == "8080"
  {
    var front := "echo " + "8080" + "; python -m http.server ";
    assert c == front + "8080" && c[..33] == front;
    assert c[32] == front[32] == ' ';
  }

  /** No `python` and no `8080` start in the first eleven characters, except
      the `8080` at 5. */
  lemma CollateralPrefix(c: string)
    requires |c| >= 11 && c[..11] == "echo 8080; "
    ensures forall j: nat :: j < 11 ==> !OccursAt(c, "python", j)
    ensures forall q: nat :: q < 5 ==> !OccursAt(c, "8080", q)
    ensures OccursAt(c, "8080", 5)
  {
    var pre := c[..11];
    assert 'p' !in pre && '8' !in pre[..5];
    forall j: nat | j < 11 ensures !OccursAt(c, "python", j) {
      assert c[j] == pre[j];
      if j + 6 <= |c| { assert c[j..j + 6][0] == c[j]; }
    }
    forall q: nat | q < 5 ensures !OccursAt(c, "8080", q) {
      assert c[q] == pre[..5][q] && c[q..q + 4][0] == c[q];
    }
    assert c[5..9] == pre[5..9];
  }

  lemma Value8080()
    ensures DigitsValue("8080") == 8080
  {
    assert DigitsValue("8") == 8;
    assert DigitsValue("80") == 80 by { assert "80"[..1] == "8"; }
    assert DigitsValue("808") == 808 by { assert "808"[..2] == "80"; }
    assert DigitsValue("8080") == 8080 by { assert "8080"[..3] == "808"; }
  }

  /** The server invocation in the collateral example starts at 11, its
      mandatory part ends at 32, and the port digits are at 33..37. */
  lemma CollateralMatch(c: string)
    requires |c| == 37 && c[..11] == "echo 8080; " && c[11..17] == "python" && c[17..18] == " "
    requires c[18..20] == "-m" && c[20..21] == " " && c[21..32] == "http.server"
    requires c[32..33] == " " && c[33..37] == "8080"
    ensures LeftmostMatch(c, 11, 32) && GroupAt(c, 32, 33, 37)
  {
    CollateralPrefix(c);
    assert MatchesVia(c, 11, 18, 21);
    assert SpacesBetween(c, 32, 33) by { assert c[32] == c[32..33][0]; }
    assert DigitsBetween(c, 33, 37) by {
      forall x | 33 <= x < 37 ensures IsDigit(c[x]) { assert c[x] == c[33..37][x - 33]; }
    }
  }

  /** The rewrite of the collateral example, on its pieces. */
  lemma CollateralAdjust(c: string, inUse: nat -> bool)
    requires |c| == 37 && c[..11] == "echo 8080; " && c[11..17] == "python" && c[17..18] == " "
    requires c[18..20] == "-m" && c[20..21] == " " && c[21..32] == "http.server"
    requires c[32..33] == " " && c[33..37] == "8080"
    requires forall p :: inUse(p) <==> p == 8080
    ensures AdjustPort(c, inUse, 9000) == c[..5] + "9000" + c[9..]
  {
    CollateralMatch(c);
    CollateralPrefix(c);
    Value8080();
    var p := AdjustBusyExplicitPort(c, inUse, 9000, 11, 32, 33, 37);
    assert p == 5;
    Decimal9000();
  }

  /** The collateral rewrite: the port number also appears in an earlier
      argument, and that earlier text is the one replaced, while the server
      keeps the busy port. */
  lemma CollateralRewrite(c: string, inUse: nat -> bool)
    requires c == "echo " + "8080" + "; python -m http.server " + "8080"
    requires forall p :: inUse(p) <==> p == 8080
    ensures AdjustPort(c, inUse, 9000) == "echo " + "9000" + "; python -m http.server " + "8080"
  {
    CollateralHead(c);
    CollateralModule(c);
    CollateralPortText(c);
    CollateralAdjust(c, inUse);
    CollateralSplice(c);
  }

  lemma Decimal9000()
    ensures Decimal(9000) == "9000"
  {
  }

  lemma CollateralSplice(c: string)
    requires c == "echo " + "8080" + "; python -m http.server " + "8080"
    ensures c[..5] + "9000" + c[9..] == "echo " + "9000" + "; python -m http.server " + "8080"
  {
    assert c[..5] == "echo " && c[9..] == "; python -m http.server " + "8080";
  }

  /** The out-of-range example, cut at the indices the match uses. */
  lemma LargePortPieces(c: string)
    requires c == "python -m http.server " + "70000"
    ensures |c| == 27 && c[..6] == "python" && c[6..7] == " " && c[7..9] == "-m" && c[9..10] == " "
    ensures c[10..21] == "http.server" && c[21..22] == " " && c[22..27] == "70000"
  {
    var front := "python -m http.server ";
    assert c == front + "70000" && c[..22] == front;
  }

  lemma Value70000()
    ensures DigitsValue("70000") == 70000
  {
    assert DigitsValue("7") == 7;
    assert DigitsValue("70") == 70 by { assert "70"[..1] == "7"; }
    assert DigitsValue("700") == 700 by { assert "700"[..2] == "70"; }
    assert DigitsValue("7000") == 7000 by { assert "7000"[..3] == "700"; }
    assert DigitsValue("70000") == 70000 by { assert "70000"[..4] == "7000"; }
  }

  /** `python -m http.server 70000` reaches `is_port_in_use(70000)`, whose
      `OverflowError` ends the program in the source as written; the
      corrected negotiation returns the command unchanged. */
  lemma LargePortEndsProgram(c: string, inUse: nat -> bool, freePort: nat)
    requires c == "python -m http.server " + "70000"
    ensures AdjustPortAsWritten(c, inUse, freePort).None?
    ensures AdjustPort(c, inUse, freePort) == c
  {
    LargePortPieces(c);
    LargePortMatch(c);
    Value70000();
    AdjustOutOfRangePort(c, inUse, freePort, 0, 21, 22, 27);
  }

  /** The server invocation of the out-of-range example spans 0..21 and its
      port digits 22..27. */
  lemma LargePortMatch(c: string)
    requires |c| == 27 && c[..6] == "python" && c[6..7] == " " && c[7..9] == "-m" && c[9..10] == " "
    requires c[10..21] == "http.server" && c[21..22] == " " && c[22..27] == "70000"
    ensures LeftmostMatch(c, 0, 21) && GroupAt(c, 21, 22, 27)
  {
    assert SpacesBetween(c, 6, 7) by { assert c[6] == c[6..7][0]; }
    assert SpacesBetween(c, 9, 10) by { assert c[9] == c[9..10][0]; }
    assert MatchesVia(c, 0, 7, 10);
    assert SpacesBetween(c, 21, 22) by { assert c[21] == c[21..22][0]; }
    assert DigitsBetween(c, 22, 27) by {
      forall x | 22 <= x < 27 ensures IsDigit(c[x]) { assert c[x] == c[22..27][x - 22]; }
    }
  }

  /** The pattern needs whitespace right after `python`, so a `python3`
      invocation is not recognised and never rewritten, busy port or not. */
  lemma Python3NotRecognised(inUse: nat -> bool, freePort: nat)
    ensures AdjustPort("python3 -m http.server 8000", inUse, freePort) == "python3 -m http.server 8000"
  {
    var c := "python3 -m http.server 8000";
    forall j: nat, e: nat ensures !Matches(c, j, e) {
      if j == 0 {
        forall a: nat, b: nat ensures !MatchesVia(c, 0, a, b) {
          if 6 < a && a <= |c| { assert !IsSpace(c[6]); }
        }
      } else if OccursAt(c, "python", j) {
        assert c[j..j + 6][0] == c[j];
      }
    }
    AdjustWithoutServer(c, inUse, freePort);
  }
}
