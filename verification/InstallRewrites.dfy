/** What the install rewrites of `InstallHints` promise: they stay on their host, and twice is once. */
module InstallRewrites {
  import opened InstallHints
  import opened InstallMatching
  import opened Text
  import opened Wrappers

  /** Whatever the hint, its transactional form is not an install suggestion any more. */
  lemma TransactionalOutputNeverMatches(hint: string)
    ensures FindInstall(TransactionalFix(hint)) == None
  {
    if FindInstall(hint).Some? {
      FoundIsToken(hint, 0);
      ImmutableWordsAreQuiet();
      WordsAreQuietHead(TRANSACTIONAL);
      RebootIsQuietFoot();
      FramedHasNoMatch(Words(TRANSACTIONAL), FindInstall(hint).value, THEN_REBOOT);
    }
  }

  /** Nor is its rpm-ostree form. */
  lemma OstreeOutputNeverMatches(hint: string)
    ensures FindInstall(OstreeFix(hint)) == None
  {
    if FindInstall(hint).Some? {
      FoundIsToken(hint, 0);
      ImmutableWordsAreQuiet();
      WordsAreQuietHead(OSTREE);
      RebootIsQuietFoot();
      FramedHasNoMatch(Words(OSTREE), FindInstall(hint).value, THEN_REBOOT);
    }
  }

  /**
   A rewrite to a command that the pattern does not know (Gentoo, pacman, apk) is idempotent on a hint
   exactly when the tail it carries over names no other package to install.
   */
  lemma RewriteIdempotentIff(head: string, hint: string)
    requires QuietHead(head) && '&' !in head
    ensures Rewrite(head, Rewrite(head, hint)) == Rewrite(head, hint) <==>
      FindInstall(hint) == None || Tail(hint) == None ||
      FindInstall(Tail(hint).value) == None || FindInstall(Tail(hint).value) == FindInstall(hint)
  {
    if FindInstall(hint).Some? {
      PackageShape(head, hint);
      var pkg := FindInstall(hint).value;
      if Tail(hint) == None {
        FramedHasNoMatch(head, pkg, "");
        assert head + pkg + "" == head + pkg;
      } else {
        TailShape(hint);
        RewriteTwice(head, pkg, Tail(hint).value);
      }
    }
  }

  lemma GentooIdempotentIff(hint: string)
    ensures GentooFix(GentooFix(hint)) == GentooFix(hint) <==>
      FindInstall(hint) == None || Tail(hint) == None ||
      FindInstall(Tail(hint).value) == None || FindInstall(Tail(hint).value) == FindInstall(hint)
  {
    var ws := ["to", "fix", "(Gentoo):", "emerge"];
    assert forall k :: 0 <= k < |ws| ==> Quiet(ws[k]) && '&' !in ws[k];
    WordsAreQuietHead(ws);
    WordsWithoutAmpersand(ws);
    RewriteIdempotentIff(Words(ws), hint);
  }

  /** pacman and apk rewrites are idempotent under the same condition. */
  lemma PacmanApkIdempotentIff(hint: string, pm: string)
    requires pm == "pacman" || pm == "apk"
    ensures DistroFix(DistroFix(hint, pm), pm) == DistroFix(hint, pm) <==>
      FindInstall(hint) == None || Tail(hint) == None ||
      FindInstall(Tail(hint).value) == None || FindInstall(Tail(hint).value) == FindInstall(hint)
  {
    var head := PacmanApkHead(pm);
    DistroIsRewrite(hint, pm, head);
    DistroIsRewrite(DistroFix(hint, pm), pm, head);
    RewriteIdempotentIff(head, hint);
  }

  /** Rewritten for dnf, tdnf or zypper, a hint still names its own package first, and carries the same tail. */
  lemma {:induction false} DistroKeepsPackageAndTail(hint: string, pm: string)
    requires pm in ["dnf", "tdnf", "zypper"]
    ensures FindInstall(DistroFix(hint, pm)) == FindInstall(hint)
    ensures FindInstall(hint).Some? ==> Tail(DistroFix(hint, pm)) == Tail(hint)
  {
    if FindInstall(hint).Some? {
      var pkg := FindInstall(hint).value;
      DistroShape(hint, pm);
      ToFixIsQuiet();
      PackageShape(Words(TO_FIX), hint);
      DistroFound(pm, pkg, Carried(hint));
      DistroTail(hint, pm, pkg);
    }
  }

  /** Hence rewriting for dnf, tdnf or zypper is idempotent on every hint. */
  lemma {:induction false} DistroFixIdempotent(hint: string, pm: string)
    requires pm in ["dnf", "tdnf", "zypper"]
    ensures DistroFix(DistroFix(hint, pm), pm) == DistroFix(hint, pm)
  {
    DistroKeepsPackageAndTail(hint, pm);
  }

  /**
   On an immutable host no package-manager command comes out of the install rewrites, although the
   host's package manager is dnf or zypper and that stage runs after the immutable ones: whatever the NixOS
   rewrite does, a hint is dropped, or the platform rewrite gets one without an install, and gives the result.
   */
  lemma {:induction false} ImmutableHostsNeverInstallLive(hint: string, distroID: string, ostree: bool,
                                                          nixos: string -> Option<string>,
                                                          platform: string -> Option<string>)
    requires Immutable(distroID, ostree)
    ensures var adapted := AdaptHint(hint, distroID, ostree, nixos, platform);
      adapted == None || exists h :: FindInstall(h) == None && adapted == platform(h)
    ensures var form := InstallForm(hint, distroID, ostree, nixos); form.Some? ==> FindInstall(form.value) == None
  {
    var id := ToLower(distroID);
    var first := if Contains(id, "nixos") then nixos(hint) else Some(hint);
    if first.Some? {
      var portage := if Contains(id, "gentoo") then GentooFix(first.value) else first.value;
      ImmutableFormIsFinal(portage, distroID, ostree);
    }
  }

  /** The package-manager stage changes nothing on an immutable host. */
  lemma {:induction false} ImmutableFormIsFinal(hint: string, distroID: string, ostree: bool)
    requires Immutable(distroID, ostree)
    ensures FindInstall(ImmutableForm(hint, distroID, ostree)) == None
    ensures PackageManagerForm(ImmutableForm(hint, distroID, ostree), distroID) == ImmutableForm(hint, distroID, ostree)
  {
    var h := if Contains(ToLower(distroID), "micro") then TransactionalFix(hint) else hint;
    TransactionalOutputNeverMatches(hint);
    OstreeOutputNeverMatches(h);
  }

  /** A hint without an install suggestion reaches the platform rewrite as it is, on every host but NixOS. */
  lemma {:induction false} OtherHintsPassThrough(hint: string, distroID: string, ostree: bool,
                                                 nixos: string -> Option<string>, platform: string -> Option<string>)
    requires FindInstall(hint) == None
    ensures !Contains(ToLower(distroID), "nixos") ==>
      AdaptHint(hint, distroID, ostree, nixos, platform) == platform(hint)
  {
    var h := if Contains(ToLower(distroID), "micro") then TransactionalFix(hint) else hint;
    assert GentooFix(hint) == hint && h == hint && OstreeFix(h) == hint;
  }

  /** On a plain dnf, tdnf or zypper host adapting the install hints a second time changes nothing. */
  lemma {:induction false} AdaptingTwice(hint: string, distroID: string, nixos: string -> Option<string>)
    requires !Immutable(distroID, false) && !Contains(ToLower(distroID), "nixos")
      && !Contains(ToLower(distroID), "gentoo")
    requires HostInstallPM(distroID) in ["", "dnf", "tdnf", "zypper"]
    ensures var form := InstallForm(hint, distroID, false, nixos);
      form.Some? && InstallForm(form.value, distroID, false, nixos) == form
  {
    if HostInstallPM(distroID) != "" {
      DistroFixIdempotent(hint, HostInstallPM(distroID));
    }
  }
}
