/**
 The package-install rewriting of internal/analysis/heuristics.go: the pattern `rePkgInstall` as a matcher, the
 rewrites that use it, and the order in which AdaptHostHints applies a host's rewrites.
 */
module InstallHints {
  import opened Text
  import opened Wrappers

  // ----- rePkgInstall

  const KEYWORDS: seq<string> := ["apt-get", "apt", "dnf", "yum", "tdnf", "zypper"]

  /** `\s` of the pattern. */
  predicate IsBlank(c: char) {
    c == '\t' || c == '\n' || c == '\U{C}' || c == '\r' || c == ' '
  }

  predicate IsAlnum(c: char) {
    'a' <= c <= 'z' || 'A' <= c <= 'Z' || '0' <= c <= '9'
  }

  predicate IsWord(c: char) {
    IsAlnum(c) || c == '_'
  }

  predicate IsTokenChar(c: char) {
    IsAlnum(c) || c == '.' || c == '_' || c == '+' || c == '-'
  }

  function DropBlanks(s: string): string {
    if s != [] && IsBlank(s[0]) then DropBlanks(s[1..]) else s
  }

  /** The longest prefix of package-name characters. */
  function Token(s: string): (t: string)
    ensures t <= s && forall k :: 0 <= k < |t| ==> IsTokenChar(t[k])
    ensures |t| < |s| ==> !IsTokenChar(s[|t|])
  {
    if s != [] && IsTokenChar(s[0]) then
      assert s == [s[0]] + s[1..];
      [s[0]] + Token(s[1..])
    else []
  }

  /** What follows the keyword: blanks, `install`, blanks, and a package name. */
  function PackageAfter(s: string): Option<string> {
    if s == [] || !IsBlank(s[0]) || !HasPrefix(DropBlanks(s), "install") then None
    else
      var rest := DropBlanks(s)[7..];
      if rest == [] || !IsBlank(rest[0]) then None
      else
        var name := DropBlanks(rest);
        if name == [] || !IsAlnum(name[0]) then None else Some(Token(name))
  }

  predicate WordStart(s: string, i: nat)
    requires i <= |s|
  {
    i == 0 || !IsWord(s[i - 1])
  }

  function KeywordAt(s: string, i: nat, keywords: seq<string>): Option<string>
    requires i <= |s|
  {
    if keywords == [] then None
    else if HasPrefix(s[i..], keywords[0]) && PackageAfter(s[i..][|keywords[0]|..]).Some? then
      PackageAfter(s[i..][|keywords[0]|..])
    else KeywordAt(s, i, keywords[1..])
  }

  function MatchAt(s: string, i: nat): Option<string>
    requires i <= |s|
  {
    if WordStart(s, i) then KeywordAt(s, i, KEYWORDS) else None
  }

  /** The package of the leftmost match at or after `i`. */
  function FindFrom(s: string, i: nat): Option<string>
    requires i <= |s|
    decreases |s| - i
  {
    if MatchAt(s, i).Some? then MatchAt(s, i)
    else if i == |s| then None
    else FindFrom(s, i + 1)
  }

  function FindInstall(s: string): Option<string> {
    FindFrom(s, 0)
  }

  // ----- the rewrites

  /** The words of a hint, each followed by a blank. */
  function Words(ws: seq<string>): string {
    if ws == [] then "" else Words(ws[..|ws| - 1]) + ws[|ws| - 1] + " "
  }

  function InstallCommand(pm: string, pkg: string): string {
    if pm == "pacman" then Words(["pacman", "-S"]) + pkg
    else if pm == "apk" then Words(["apk", "add"]) + pkg
    else Words([pm, "install"]) + pkg
  }

  /** The first `&&` and what follows, trimmed; this is carried over to the rewritten hint. */
  function Tail(hint: string): Option<string> {
    match Index(hint, "&&")
    case Some(i) => Some(TrimSpace(hint[i..]))
    case None => None
  }

  function WithTail(head: string, hint: string): string {
    match Tail(hint)
    case Some(tail) => head + " " + tail
    case None => head
  }

  const TO_FIX := ["to", "fix:"]

  function DistroFix(hint: string, pm: string): string {
    match FindInstall(hint)
    case Some(pkg) => WithTail(Words(TO_FIX) + InstallCommand(pm, pkg), hint)
    case None => hint
  }

  function GentooFix(hint: string): string {
    match FindInstall(hint)
    case Some(pkg) => WithTail(Words(["to", "fix", "(Gentoo):", "emerge"]) + pkg, hint)
    case None => hint
  }

  const TRANSACTIONAL := ["to", "fix", "(transactional):", "transactional-update", "pkg", "install"]
  const OSTREE := ["to", "fix", "(ostree):", "rpm-ostree", "install"]
  const THEN_REBOOT := " (then reboot)"

  function TransactionalFix(hint: string): string {
    match FindInstall(hint)
    case Some(pkg) => Words(TRANSACTIONAL) + pkg + THEN_REBOOT
    case None => hint
  }

  function OstreeFix(hint: string): string {
    match FindInstall(hint)
    case Some(pkg) => Words(OSTREE) + pkg + THEN_REBOOT
    case None => hint
  }

  method DistroifyInstallHints(hints: array<string>, pm: string)
    modifies hints
    ensures forall k :: 0 <= k < hints.Length ==> hints[k] == DistroFix(old(hints[k]), pm)
  {
    RewriteEach(hints, (h: string) => DistroFix(h, pm));
  }

  /** The loop over the hints of an insight, rewriting each where it is. */
  method RewriteEach(hints: array<string>, fix: string -> string)
    modifies hints
    ensures forall k :: 0 <= k < hints.Length ==> hints[k] == fix(old(hints[k]))
  {
    for k := 0 to hints.Length
      invariant forall j :: 0 <= j < k ==> hints[j] == fix(old(hints[j]))
      invariant forall j :: k <= j < hints.Length ==> hints[j] == old(hints[j])
    {
      hints[k] := fix(hints[k]);
    }
  }

  // ----- the rewrites of one host, in order

  predicate MatchesAny(id: string, subs: seq<string>) {
    exists k :: 0 <= k < |subs| && Contains(id, subs[k])
  }

  const RHEL_LIKE := ["rhel", "centos", "almalinux", "alma", "rocky", "fedora", "oracle", "ol", "amzn", "rhpkg"]

  /** The package manager an administrator of the host uses, or "" to leave hints alone. */
  function HostInstallPM(distroID: string): string {
    var id := ToLower(distroID);
    if id == "" || Contains(id, "gentoo") || Contains(id, "nixos") then ""
    else if Contains(id, "photon") then "tdnf"
    else if Contains(id, "suse") || Contains(id, "sle") then "zypper"
    else if MatchesAny(id, RHEL_LIKE) then "dnf"
    else if MatchesAny(id, ["arch", "artix", "manjaro", "endeavouros", "garuda", "arcolinux"]) then "pacman"
    else if Contains(id, "alpine") then "apk"
    else ""
  }

  function ImmutableForm(hint: string, distroID: string, ostree: bool): string {
    var h := if Contains(ToLower(distroID), "micro") then TransactionalFix(hint) else hint;
    if ostree then OstreeFix(h) else h
  }

  function PackageManagerForm(hint: string, distroID: string): string {
    var pm := HostInstallPM(distroID);
    if pm != "" then DistroFix(hint, pm) else hint
  }

  /** AdaptHostHints on one hint, up to the last rewrite. The NixOS rewrite is arbitrary and may drop the hint. */
  function InstallForm(hint: string, distroID: string, ostree: bool, nixos: string -> Option<string>): Option<string> {
    var id := ToLower(distroID);
    match if Contains(id, "nixos") then nixos(hint) else Some(hint)
    case None => None
    case Some(h) =>
      var portage := if Contains(id, "gentoo") then GentooFix(h) else h;
      Some(PackageManagerForm(ImmutableForm(portage, distroID, ostree), distroID))
  }

  /** AdaptHostHints on one hint. The rewrite for the init system and the platform is arbitrary, too. */
  function AdaptHint(hint: string, distroID: string, ostree: bool,
                     nixos: string -> Option<string>, platform: string -> Option<string>): Option<string> {
    match InstallForm(hint, distroID, ostree, nixos)
    case Some(h) => platform(h)
    case None => None
  }

  predicate Immutable(distroID: string, ostree: bool) {
    Contains(ToLower(distroID), "micro") || ostree
  }
}
