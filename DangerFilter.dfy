/** The denylist check applied to every command before it may run
    (`is_command_dangerous`). */
module DangerFilter {
  import opened Text

  /** The one denylisted pattern: recursive deletion from the root. */
  const DangerPattern: string := "rm -rf /"

  /** True exactly when the lower-cased command contains the pattern. */
  predicate IsCommandDangerous(command: string) {
    Contains(Lower(command), DangerPattern)
  }

  /** The pattern, compared case-insensitively, sits at index `i` of `command`. */
  predicate DangerAt(command: string, i: nat) {
    i + |DangerPattern| <= |command| &&
    forall k :: 0 <= k < |DangerPattern| ==> LowerChar(command[i + k]) == DangerPattern[k]
  }

  /** The filter flags a command exactly when some window of it spells the
      pattern, letters in either case; no other command is flagged. */
  lemma DangerousIff(command: string)
    ensures IsCommandDangerous(command) <==> exists i: nat :: DangerAt(command, i)
  {
    forall i: nat ensures OccursAt(Lower(command), DangerPattern, i) <==> DangerAt(command, i) {
      if i + |DangerPattern| <= |command| {
        DangerWindow(command, i);
      }
    }
  }

  /** One window of the lower-cased command spells the pattern exactly when
      the same window of the command does, up to letter case. */
  lemma DangerWindow(command: string, i: nat)
    requires i + |DangerPattern| <= |command|
    ensures OccursAt(Lower(command), DangerPattern, i) <==> DangerAt(command, i)
  {
    var window := Lower(command)[i..i + |DangerPattern|];
    assert forall k :: 0 <= k < |DangerPattern| ==> window[k] == LowerChar(command[i + k]);
  }

  /** The check is blind to letter case: two commands that lower-case to the
      same text get the same verdict. */
  lemma DangerousIgnoresCase(a: string, b: string)
    requires |a| == |b|
    requires forall i :: 0 <= i < |a| ==> LowerChar(a[i]) == LowerChar(b[i])
    ensures IsCommandDangerous(a) == IsCommandDangerous(b)
  {
    assert Lower(a) == Lower(b);
  }

  /** An upper-case spelling is flagged. */
  lemma UpperCaseIsDangerous()
    ensures IsCommandDangerous("RM -RF /")
  {
    DangerousIff("RM -RF /");
    assert DangerAt("RM -RF /", 0);
  }

  /** A deletion below the root is flagged too: the pattern is a substring. */
  lemma SubdirectoryIsDangerous()
    ensures IsCommandDangerous("rm -rf /tmp")
  {
    DangerousIff("rm -rf /tmp");
    assert DangerAt("rm -rf /tmp", 0);
  }

  /** The check is a plain substring test: the same deletion with its flags
      reordered is not flagged. */
  lemma ReorderedFlagsNotDangerous()
    ensures !IsCommandDangerous("rm -fr /")
  {
    var c := "rm -fr /";
    DangerousIff(c);
    forall i: nat | i + |DangerPattern| <= |c| ensures !DangerAt(c, i) {
      assert LowerChar(c[i + 4]) != DangerPattern[4];
    }
  }
}
