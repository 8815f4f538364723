/**
 What becomes of an install hint on each host, to the letter, by the distribution ID of the host.

 - RedHatLike, ArchLike and Command say which words of the ID, in any case, stand for which install command; ManagerIff:
   that is what the model's HostInstallPM amounts to.
 - CarriedOver says what is kept from a hint behind its command; TailIsCarriedOver: that is what Tail yields.
 - The lemmas on words (ToFixWords, GentooWords, OstreeWords, TransactionalWords) give the constant texts in full.
 - DistroForm, GentooForm and ImmutableLiteral give each rewrite in full, FormOf their order.
 - InstallHintOnHost, InstallHintOnReadOnlyGentoo and OtherHintOnHost: the hint on every host.
 */
module InstallForms {
  import opened InstallHints
  import opened InstallMatching
  import opened InstallPattern
  import opened InstallRewrites
  import opened Text
  import opened Wrappers

  // ----- the host

  predicate RedHatLike(id: string) {
    || Mentions(id, "rhel") || Mentions(id, "centos") || Mentions(id, "almalinux") || Mentions(id, "alma")
    || Mentions(id, "rocky") || Mentions(id, "fedora") || Mentions(id, "oracle") || Mentions(id, "ol")
    || Mentions(id, "amzn") || Mentions(id, "rhpkg")
  }

  predicate ArchLike(id: string) {
    || Mentions(id, "arch") || Mentions(id, "artix") || Mentions(id, "manjaro") || Mentions(id, "endeavouros")
    || Mentions(id, "garuda") || Mentions(id, "arcolinux")
  }

  /** The install command of the host, up to the package; none where install hints stay as they are. */
  function Command(id: string): string {
    if Mentions(id, "gentoo") || Mentions(id, "nixos") then ""
    else if Mentions(id, "photon") then "tdnf install "
    else if Mentions(id, "suse") || Mentions(id, "sle") then "zypper install "
    else if RedHatLike(id) then "dnf install "
    else if ArchLike(id) then "pacman -S "
    else if Mentions(id, "alpine") then "apk add "
    else ""
  }

  lemma RedHatWords(l: string)
    ensures MatchesAny(l, RHEL_LIKE) <==>
      || Contains(l, "rhel") || Contains(l, "centos") || Contains(l, "almalinux") || Contains(l, "alma")
      || Contains(l, "rocky") || Contains(l, "fedora") || Contains(l, "oracle") || Contains(l, "ol")
      || Contains(l, "amzn") || Contains(l, "rhpkg")
  {
    assert forall k :: 0 <= k < |RHEL_LIKE| && Contains(l, RHEL_LIKE[k]) ==> MatchesAny(l, RHEL_LIKE);
    assert RHEL_LIKE[0] == "rhel" && RHEL_LIKE[1] == "centos" && RHEL_LIKE[2] == "almalinux" && RHEL_LIKE[3] == "alma";
    assert RHEL_LIKE[4] == "rocky" && RHEL_LIKE[5] == "fedora" && RHEL_LIKE[6] == "oracle" && RHEL_LIKE[7] == "ol";
    assert RHEL_LIKE[8] == "amzn" && RHEL_LIKE[9] == "rhpkg";
  }

  lemma RedHatIff(id: string)
    ensures MatchesAny(ToLower(id), RHEL_LIKE) <==> RedHatLike(id)
  {
    RedHatWords(ToLower(id));
    SomeRedHatWords(id);
    MentionsIff(id, "fedora"); MentionsIff(id, "oracle"); MentionsIff(id, "ol"); MentionsIff(id, "amzn");
    MentionsIff(id, "rhpkg");
  }

  lemma SomeRedHatWords(id: string)
    ensures var l := ToLower(id);
      && (Contains(l, "rhel") <==> Mentions(id, "rhel")) && (Contains(l, "centos") <==> Mentions(id, "centos"))
      && (Contains(l, "almalinux") <==> Mentions(id, "almalinux")) && (Contains(l, "alma") <==> Mentions(id, "alma"))
      && (Contains(l, "rocky") <==> Mentions(id, "rocky"))
  {
    MentionsIff(id, "rhel"); MentionsIff(id, "centos"); MentionsIff(id, "almalinux"); MentionsIff(id, "alma");
    MentionsIff(id, "rocky");
  }

  lemma ArchWords(l: string)
    ensures MatchesAny(l, ["arch", "artix", "manjaro", "endeavouros", "garuda", "arcolinux"]) <==>
      || Contains(l, "arch") || Contains(l, "artix") || Contains(l, "manjaro") || Contains(l, "endeavouros")
      || Contains(l, "garuda") || Contains(l, "arcolinux")
  {
    var words := ["arch", "artix", "manjaro", "endeavouros", "garuda", "arcolinux"];
    assert forall k :: 0 <= k < |words| && Contains(l, words[k]) ==> MatchesAny(l, words);
    assert words[0] == "arch" && words[1] == "artix" && words[2] == "manjaro" && words[3] == "endeavouros";
    assert words[4] == "garuda" && words[5] == "arcolinux";
  }

  lemma ArchIff(id: string)
    ensures MatchesAny(ToLower(id), ["arch", "artix", "manjaro", "endeavouros", "garuda", "arcolinux"])
      <==> ArchLike(id)
  {
    ArchWords(ToLower(id));
    MentionsIff(id, "arch"); MentionsIff(id, "artix"); MentionsIff(id, "manjaro"); MentionsIff(id, "endeavouros");
    MentionsIff(id, "garuda"); MentionsIff(id, "arcolinux");
  }

  lemma NothingInEmpty(words: seq<string>)
    requires "" !in words
    ensures forall word :: word in words ==> !Mentions("", word)
  {
  }

  lemma EmptyIDHasNoCommand()
    ensures Command("") == ""
  {
    NothingInEmpty(["photon", "suse", "sle", "alpine"]);
    NothingInEmpty(["rhel", "centos", "almalinux", "alma", "rocky", "fedora", "oracle", "ol", "amzn", "rhpkg"]);
    NothingInEmpty(["arch", "artix", "manjaro", "endeavouros", "garuda", "arcolinux"]);
  }

  /** The six answers of the source. */
  function CommandOf(pm: string): string {
    if pm == "" then ""
    else if pm == "pacman" then "pacman -S "
    else if pm == "apk" then "apk add "
    else pm + " install "
  }

  lemma ManagerIff(id: string)
    ensures Command(id) == CommandOf(HostInstallPM(id))
    ensures HostInstallPM(id) in ["", "tdnf", "zypper", "dnf", "pacman", "apk"]
  {
    if id == "" {
      EmptyIDHasNoCommand();
    } else {
      MentionsIff(id, "gentoo"); MentionsIff(id, "nixos"); MentionsIff(id, "photon"); MentionsIff(id, "suse");
      MentionsIff(id, "sle"); MentionsIff(id, "alpine");
      RedHatIff(id);
      ArchIff(id);
      DnfCommands();
    }
  }

  lemma DnfCommands()
    ensures CommandOf("tdnf") == "tdnf install " && CommandOf("zypper") == "zypper install "
    ensures CommandOf("dnf") == "dnf install " && CommandOf("pacman") == "pacman -S " && CommandOf("apk") == "apk add "
  {
  }

  // ----- the letter of the rewrites

  predicate AmpersandsAt(hint: string, i: nat) {
    i + 1 < |hint| && hint[i] == '&' && hint[i + 1] == '&'
  }

  ghost predicate FirstAmpersands(hint: string, i: nat) {
    AmpersandsAt(hint, i) && forall k :: 0 <= k < i ==> !AmpersandsAt(hint, k)
  }

  /** `hint[from..to]` is all of the rest but the blanks at its end. */
  ghost predicate RestUpTo(hint: string, from: nat, to: nat) {
    from < to <= |hint| && !IsSpace(hint[to - 1]) && forall j :: to <= j < |hint| ==> IsSpace(hint[j])
  }

  /** A blank and what stands from the first `&&` on, without the blanks at its end; nothing where there is none. */
  ghost predicate CarriedOver(hint: string, tail: string) {
    if exists i: nat :: i < |hint| && AmpersandsAt(hint, i)
    then exists i: nat, to: nat :: FirstAmpersands(hint, i) && RestUpTo(hint, i, to) && tail == " " + hint[i..to]
    else tail == ""
  }

  lemma AmpersandsIff(hint: string, i: nat)
    requires i <= |hint|
    ensures HasPrefix(hint[i..], "&&") <==> AmpersandsAt(hint, i)
  {
    if AmpersandsAt(hint, i) {
      assert hint[i..][..2] == "&&";
    }
    if HasPrefix(hint[i..], "&&") {
      assert hint[i..][0] == '&' && hint[i..][1] == '&';
    }
  }

  lemma {:induction false} TrimmedRest(hint: string, i: nat) returns (to: nat)
    requires AmpersandsAt(hint, i)
    ensures RestUpTo(hint, i, to) && TrimSpace(hint[i..]) == hint[i..to]
  {
    var rest := hint[i..];
    var tail := TrimSpace(rest);
    assert rest[0] == '&';
    TrimSpaceShape(rest);
    TrimLeftShape(rest);
    TrimRightShape(rest);
    to := i + |tail|;
    assert forall j :: i <= j < |hint| ==> hint[j] == rest[j - i];
    assert tail == rest[..|tail|] == hint[i..to];
    assert hint[to - 1] == tail[|tail| - 1];
  }

  lemma {:induction false} TailIsCarriedOver(hint: string)
    ensures CarriedOver(hint, Carried(hint))
  {
    IndexMeaning(hint, "&&");
    forall i: nat | i <= |hint| ensures HasPrefix(hint[i..], "&&") <==> AmpersandsAt(hint, i) {
      AmpersandsIff(hint, i);
    }
    if Tail(hint).Some? {
      var i := Index(hint, "&&").value;
      assert FirstAmpersands(hint, i);
      var to := TrimmedRest(hint, i);
    } else {
      NothingCarried(hint);
    }
  }

  lemma NothingCarried(hint: string)
    requires !Contains(hint, "&&")
    ensures forall i: nat :: i < |hint| ==> !AmpersandsAt(hint, i)
  {
    forall i: nat | i < |hint| ensures !AmpersandsAt(hint, i) {
      AmpersandsIff(hint, i);
    }
  }

  lemma OneWord(ws: seq<string>, w: string)
    ensures Words(ws + [w]) == Words(ws) + w + " "
  {
    assert (ws + [w])[..|ws|] == ws;
  }

  lemma ToFixWords()
    ensures Words(TO_FIX) == "to fix: "
  {
    OneWord([], "to");
    OneWord(["to"], "fix:");
  }

  lemma ToFixFor(host: string)
    ensures Words(["to", "fix", host]) == "to fix " + host + " "
  {
    OneWord([], "to");
    OneWord(["to"], "fix");
    assert Words(["to", "fix"]) == "to fix ";
    OneWord(["to", "fix"], host);
    assert ["to", "fix"] + [host] == ["to", "fix", host];
  }

  lemma GentooWords()
    ensures Words(["to", "fix", "(Gentoo):", "emerge"]) == "to fix (Gentoo): emerge "
  {
    var ws := ["to", "fix", "(Gentoo):"];
    ToFixFor("(Gentoo):");
    OneWord(ws, "emerge");
    assert ws + ["emerge"] == ["to", "fix", "(Gentoo):", "emerge"];
  }

  lemma OstreeWords()
    ensures Words(OSTREE) == "to fix (ostree): " + "rpm-ostree install "
  {
    var ws := ["to", "fix", "(ostree):"];
    ToFixFor("(ostree):");
    OneWord(ws, "rpm-ostree");
    OneWord(ws + ["rpm-ostree"], "install");
    assert ws + ["rpm-ostree"] + ["install"] == OSTREE;
    assert "to fix " + "(ostree):" + " " == "to fix (ostree): ";
    assert "rpm-ostree" + " " + "install" + " " == "rpm-ostree install ";
    Regroup("to fix (ostree): ", "rpm-ostree", " ", "install", " ");
  }

  lemma Regroup(head: string, a: string, b: string, c: string, d: string)
    ensures head + a + b + c + d == head + (a + b + c + d)
  {
    assert head + a + b == head + (a + b);
    assert head + (a + b) + c == head + (a + b + c);
  }

  lemma TransactionalWords()
    ensures Words(TRANSACTIONAL) == "to fix (transactional): " + "transactional-update pkg install "
  {
    var ws := ["to", "fix", "(transactional):"];
    var head := Words(ws);
    ToFixFor("(transactional):");
    OneWord(ws, "transactional-update");
    OneWord(ws + ["transactional-update"], "pkg");
    OneWord(ws + ["transactional-update"] + ["pkg"], "install");
    assert ws + ["transactional-update"] + ["pkg"] + ["install"] == TRANSACTIONAL;
    TransactionalHead();
    TransactionalCommand();
    Regroup(head, "transactional-update", " ", "pkg", " ");
    Regroup(head, "transactional-update" + " " + "pkg" + " ", "install", " ", "");
  }

  lemma TransactionalHead()
    ensures "to fix " + "(transactional):" + " " == "to fix (transactional): "
  {
  }

  lemma TransactionalCommand()
    ensures "transactional-update" + " " + "pkg" + " " + ("install" + " " + "") == "transactional-update pkg install "
  {
    assert "pkg" + " " + "install" + " " == "pkg install ";
  }

  lemma PacmanApkLiteral(pm: string, pkg: string)
    requires pm in ["pacman", "apk"]
    ensures InstallCommand(pm, pkg) == CommandOf(pm) + pkg
  {
    if pm == "pacman" {
      OneWord([], "pacman");
      OneWord(["pacman"], "-S");
      assert ["pacman"] + ["-S"] == ["pacman", "-S"];
    } else {
      OneWord([], "apk");
      OneWord(["apk"], "add");
      assert ["apk"] + ["add"] == ["apk", "add"];
    }
  }

  lemma CommandIsLiteral(pm: string, pkg: string)
    requires pm in ["tdnf", "zypper", "dnf", "pacman", "apk"]
    ensures InstallCommand(pm, pkg) == CommandOf(pm) + pkg
  {
    if pm in ["pacman", "apk"] {
      PacmanApkLiteral(pm, pkg);
    } else {
      InstallWords(pm);
      assert " " + "install" + " " == " install ";
      assert pm + " " + "install" + " " == pm + (" " + "install" + " ");
    }
  }

  lemma TailBehind(head: string, hint: string)
    ensures WithTail(head, hint) == head + Carried(hint)
  {
    if Tail(hint).Some? {
      assert head + " " + Tail(hint).value == head + (" " + Tail(hint).value);
    }
  }

  lemma DistroForm(hint: string, pm: string, pkg: string)
    requires FindInstall(hint) == Some(pkg) && pm in ["tdnf", "zypper", "dnf", "pacman", "apk"]
    ensures DistroFix(hint, pm) == "to fix: " + CommandOf(pm) + pkg + Carried(hint)
  {
    ToFixWords();
    CommandIsLiteral(pm, pkg);
    TailBehind(Words(TO_FIX) + InstallCommand(pm, pkg), hint);
    assert "to fix: " + (CommandOf(pm) + pkg) == "to fix: " + CommandOf(pm) + pkg;
  }

  lemma GentooForm(hint: string, pkg: string)
    requires FindInstall(hint) == Some(pkg)
    ensures GentooFix(hint) == "to fix (Gentoo): emerge " + pkg + Carried(hint)
  {
    GentooWords();
    TailBehind(Words(["to", "fix", "(Gentoo):", "emerge"]) + pkg, hint);
  }

  /** The form of an install hint on a host whose system is read-only, and where it is not. */
  function ReadOnlyForm(pkg: string, micro: bool): string {
    if micro then "to fix (transactional): " + "transactional-update pkg install " + pkg + " (then reboot)"
    else "to fix (ostree): " + "rpm-ostree install " + pkg + " (then reboot)"
  }

  lemma {:induction false} ImmutableLiteral(hint: string, pkg: string, distroID: string, ostree: bool)
    requires FindInstall(hint) == Some(pkg) && (Mentions(distroID, "micro") || ostree)
    ensures ImmutableForm(hint, distroID, ostree) == ReadOnlyForm(pkg, Mentions(distroID, "micro"))
  {
    MentionsIff(distroID, "micro");
    TransactionalWords();
    OstreeWords();
    TransactionalOutputNeverMatches(hint);
  }

  // ----- the hint on its host

  /** What the NixOS stage, which is arbitrary, hands on; elsewhere there is none. */
  predicate HandedOn(given: string, distroID: string, nixos: string -> Option<string>, hint: string) {
    if Mentions(distroID, "nixos") then nixos(given) == Some(hint) else given == hint
  }

  lemma {:induction false} FormOf(given: string, distroID: string, ostree: bool, nixos: string -> Option<string>,
                                  hint: string)
    requires HandedOn(given, distroID, nixos, hint)
    ensures var portage := if Mentions(distroID, "gentoo") then GentooFix(hint) else hint;
      InstallForm(given, distroID, ostree, nixos)
        == Some(PackageManagerForm(ImmutableForm(portage, distroID, ostree), distroID))
  {
    MentionsIff(distroID, "nixos");
    MentionsIff(distroID, "gentoo");
  }

  lemma LeftmostIsFound(hint: string, i: nat, pkg: string)
    requires LeftmostFit(hint, i, pkg)
    ensures FindInstall(hint) == Some(pkg)
  {
    FindsLeftmostLongest(hint, pkg);
  }

  lemma {:induction false} PlainForm(hint: string, distroID: string, pkg: string)
    requires FindInstall(hint) == Some(pkg)
    ensures PackageManagerForm(hint, distroID) ==
      if Command(distroID) == "" then hint else "to fix: " + Command(distroID) + pkg + Carried(hint)
  {
    var pm := HostInstallPM(distroID);
    ManagerIff(distroID);
    if pm != "" {
      DistroForm(hint, pm, pkg);
    }
  }

  lemma GentooHasNoManager(hint: string, distroID: string)
    requires Mentions(distroID, "gentoo")
    ensures PackageManagerForm(hint, distroID) == hint
  {
    MentionsIff(distroID, "gentoo");
  }

  lemma WritableForm(hint: string, distroID: string, ostree: bool)
    requires !Mentions(distroID, "micro") && !ostree
    ensures ImmutableForm(hint, distroID, ostree) == hint
  {
    MentionsIff(distroID, "micro");
  }

  lemma {:induction false} ReadOnlyIsFinal(hint: string, distroID: string, ostree: bool, pkg: string)
    requires FindInstall(hint) == Some(pkg) && (Mentions(distroID, "micro") || ostree)
    ensures PackageManagerForm(ImmutableForm(hint, distroID, ostree), distroID)
      == ReadOnlyForm(pkg, Mentions(distroID, "micro"))
  {
    MentionsIff(distroID, "micro");
    ImmutableLiteral(hint, pkg, distroID, ostree);
    ImmutableFormIsFinal(hint, distroID, ostree);
  }

  /**
   A hint that asks for an install, on any host that is not a read-only Gentoo: to the letter, the install command of
   the host with the package at the leftmost place of the pattern, and what the hint went on with.
   */
  lemma {:induction false} InstallHintOnHost(given: string, distroID: string, ostree: bool,
                                             nixos: string -> Option<string>, platform: string -> Option<string>,
                                             hint: string, i: nat, pkg: string)
    returns (tail: string)
    requires HandedOn(given, distroID, nixos, hint) && LeftmostFit(hint, i, pkg)
    ensures CarriedOver(hint, tail)
    ensures var form := InstallForm(given, distroID, ostree, nixos);
      form.Some? && AdaptHint(given, distroID, ostree, nixos, platform) == platform(form.value)
    ensures var form, gentoo := InstallForm(given, distroID, ostree, nixos), Mentions(distroID, "gentoo");
      if Mentions(distroID, "micro") || ostree then
        !gentoo ==> form == Some(ReadOnlyForm(pkg, Mentions(distroID, "micro")))
      else if gentoo then form == Some("to fix (Gentoo): emerge " + pkg + tail)
      else if Command(distroID) == "" then form == Some(hint)
      else form == Some("to fix: " + Command(distroID) + pkg + tail)
  {
    tail := Carried(hint);
    TailIsCarriedOver(hint);
    LeftmostIsFound(hint, i, pkg);
    FormOf(given, distroID, ostree, nixos, hint);
    if Mentions(distroID, "micro") || ostree {
      ReadOnlyIsFinal(hint, distroID, ostree, pkg);
    } else if Mentions(distroID, "gentoo") {
      GentooForm(hint, pkg);
      WritableForm(GentooFix(hint), distroID, ostree);
      GentooHasNoManager(GentooFix(hint), distroID);
    } else {
      WritableForm(hint, distroID, ostree);
      PlainForm(hint, distroID, pkg);
    }
  }

  lemma GentooWordsAreQuiet()
    ensures var head := Words(["to", "fix", "(Gentoo):", "emerge"]); QuietHead(head) && '&' !in head
  {
    var ws := ["to", "fix", "(Gentoo):", "emerge"];
    assert forall k :: 0 <= k < |ws| ==> Quiet(ws[k]) && '&' !in ws[k];
    WordsAreQuietHead(ws);
    WordsWithoutAmpersand(ws);
  }

  lemma GentooFormAsksFor(hint: string, pkg: string)
    requires FindInstall(hint) == Some(pkg)
    ensures FindInstall(GentooFix(hint)) == if Tail(hint) == None then None else FindInstall(Tail(hint).value)
  {
    var ws := ["to", "fix", "(Gentoo):", "emerge"];
    var head := Words(ws);
    GentooWordsAreQuiet();
    PackageShape(head, hint);
    if Tail(hint) == None {
      FramedHasNoMatch(head, pkg, "");
      assert head + pkg + "" == head + pkg;
    } else {
      TailShape(hint);
      OnlyTailMatches(head, pkg, Tail(hint).value);
    }
  }

  /** The blank in front of what is carried over does not matter to the pattern. */
  lemma CarriedAsksFor(hint: string)
    ensures FindInstall(Carried(hint)) == if Tail(hint) == None then None else FindInstall(Tail(hint).value)
  {
    if Tail(hint).Some? {
      var tail := Tail(hint).value;
      TailShape(hint);
      assert BadBlank(" " + tail, 0);
      MatchesSkipPrefix(" ", tail, 0);
    } else {
      NoMatchFrom("", 0);
    }
  }

  /** A read-only Gentoo: the portage form comes first, and what it carries over may ask for another install. */
  lemma {:induction false} InstallHintOnReadOnlyGentoo(given: string, distroID: string, ostree: bool,
                                                       nixos: string -> Option<string>, hint: string, i: nat,
                                                       pkg: string)
    returns (tail: string)
    requires HandedOn(given, distroID, nixos, hint) && LeftmostFit(hint, i, pkg)
    requires Mentions(distroID, "gentoo") && (Mentions(distroID, "micro") || ostree)
    ensures CarriedOver(hint, tail)
    ensures forall j: nat, q :: LeftmostFit(tail, j, q) ==>
      InstallForm(given, distroID, ostree, nixos) == Some(ReadOnlyForm(q, Mentions(distroID, "micro")))
    ensures (forall j: nat, q :: !Fits(tail, j, q)) ==>
      InstallForm(given, distroID, ostree, nixos) == Some("to fix (Gentoo): emerge " + pkg + tail)
  {
    tail := Carried(hint);
    TailIsCarriedOver(hint);
    LeftmostIsFound(hint, i, pkg);
    FormOf(given, distroID, ostree, nixos, hint);
    GentooForm(hint, pkg);
    GentooFormAsksFor(hint, pkg);
    CarriedAsksFor(hint);
    var portage := GentooFix(hint);
    GentooHasNoManager(ImmutableForm(portage, distroID, ostree), distroID);
    forall j: nat, q | LeftmostFit(tail, j, q)
      ensures InstallForm(given, distroID, ostree, nixos) == Some(ReadOnlyForm(q, Mentions(distroID, "micro")))
    {
      LeftmostIsFound(tail, j, q);
      ImmutableLiteral(portage, q, distroID, ostree);
    }
    if forall j: nat, q :: !Fits(tail, j, q) {
      FindsLeftmostLongest(tail, "");
      NothingToAdapt(portage, distroID, ostree);
    }
  }

  lemma NothingToAdapt(hint: string, distroID: string, ostree: bool)
    requires FindInstall(hint) == None
    ensures ImmutableForm(hint, distroID, ostree) == hint
  {
  }

  /** A hint that asks for no install, and one that the NixOS stage drops. */
  lemma {:induction false} OtherHintOnHost(given: string, distroID: string, ostree: bool,
                                           nixos: string -> Option<string>, platform: string -> Option<string>,
                                           hint: string)
    ensures HandedOn(given, distroID, nixos, hint) && (forall i: nat, pkg :: !Fits(hint, i, pkg)) ==>
      InstallForm(given, distroID, ostree, nixos) == Some(hint)
      && AdaptHint(given, distroID, ostree, nixos, platform) == platform(hint)
    ensures Mentions(distroID, "nixos") && nixos(given) == None ==>
      InstallForm(given, distroID, ostree, nixos) == None
      && AdaptHint(given, distroID, ostree, nixos, platform) == None
  {
    MentionsIff(distroID, "nixos");
    FindsLeftmostLongest(hint, "");
    if HandedOn(given, distroID, nixos, hint) {
      FormOf(given, distroID, ostree, nixos, hint);
    }
  }
}
