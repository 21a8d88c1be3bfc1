/** Lower-casing for ASCII letters only, which shows that what is asked of hashing and case folding can be met.

    The hash is the same for all names: only its form is asked for. */
module AsciiNames {
  import opened SnapshotPaths

  const AsciiPlatform: Platform :=
    Platform((s: string) => seq(64, i => '0'), (s: string) => AsciiLower(s), (s: string) => AsciiLower(s))

  lemma AsciiPlatformIsLawful()
    ensures Lawful(AsciiPlatform)
  {
    forall s: string | PREFIX <= s
      ensures PREFIX <= AsciiLower(s)
    {
      assert forall i :: 0 <= i < |PREFIX| ==> s[i] == PREFIX[i] && LowerChar(s[i]) == PREFIX[i];
    }
  }
}
