/** The four remote names that one recording uses, and why no two recordings share any. */
module RemoteNames {
  predicate EndsWith(text: string, suffix: string) {
    |suffix| <= |text| && text[|text| - |suffix|..] == suffix
  }

  function Strip(text: string, suffix: string): string
    requires |suffix| <= |text|
  {
    text[..|text| - |suffix|]
  }

  /** A media path, clear or encrypted. */
  predicate IsRecording(path: string) {
    EndsWith(path, ".ts") || EndsWith(path, ".ts.enc")
  }

  function SidecarPath(path: string): string
    requires IsRecording(path)
  {
    if EndsWith(path, ".ts.enc") then Strip(path, ".ts.enc") + ".json.enc"
    else Strip(path, ".ts") + ".json"
  }

  const PARTIAL := ".camvault-partial"

  function PartialName(path: string): string { path + PARTIAL }

  // ---- Reading a remote name back -----------------------------------------

  datatype Role = Role(partial: bool, sidecar: bool)

  function RoleOf(name: string): Role {
    var partial := EndsWith(name, PARTIAL);
    var final := if partial then Strip(name, PARTIAL) else name;
    Role(partial, EndsWith(final, ".json") || EndsWith(final, ".json.enc"))
  }

  /** The recording a remote name belongs to. */
  function OwnerOf(name: string): string {
    var final := if EndsWith(name, PARTIAL) then Strip(name, PARTIAL) else name;
    if EndsWith(final, ".json.enc") then Strip(final, ".json.enc") + ".ts.enc"
    else if EndsWith(final, ".json") then Strip(final, ".json") + ".ts"
    else final
  }

  lemma {:induction false} StripRoundTrip(stem: string, suffix: string)
    ensures EndsWith(stem + suffix, suffix) && Strip(stem + suffix, suffix) == stem
  {
  }

  /** Suffixes that differ in a character do not end the same text. */
  lemma {:induction false} EndsDiffer(text: string, one: string, other: string, k: nat)
    requires EndsWith(text, one) && 1 <= k <= |one| && k <= |other|
    requires one[|one| - k] != other[|other| - k]
    ensures !EndsWith(text, other)
  {
    assert text[|text| - |one|..][|one| - k] == text[|text| - k];
  }

  /** A finished name is no transaction name, and a media path is no sidecar path. */
  lemma {:induction false} MediaName(path: string)
    requires IsRecording(path)
    ensures RoleOf(path) == Role(false, false) && OwnerOf(path) == path
  {
    var suffix := if EndsWith(path, ".ts") then ".ts" else ".ts.enc";
    EndsDiffer(path, suffix, PARTIAL, 1);
    if suffix == ".ts" {
      EndsDiffer(path, suffix, ".json", 1);
      EndsDiffer(path, suffix, ".json.enc", 1);
    } else {
      EndsDiffer(path, suffix, ".json", 1);
      EndsDiffer(path, suffix, ".json.enc", 5);
    }
  }

  lemma {:induction false} SidecarName(path: string)
    requires IsRecording(path)
    ensures RoleOf(SidecarPath(path)) == Role(false, true) && OwnerOf(SidecarPath(path)) == path
  {
    var name := SidecarPath(path);
    if EndsWith(path, ".ts.enc") {
      StripRoundTrip(Strip(path, ".ts.enc"), ".json.enc");
      EndsDiffer(name, ".json.enc", PARTIAL, 1);
      assert path == Strip(path, ".ts.enc") + ".ts.enc";
    } else {
      StripRoundTrip(Strip(path, ".ts"), ".json");
      EndsDiffer(name, ".json", PARTIAL, 1);
      EndsDiffer(name, ".json", ".json.enc", 1);
      assert path == Strip(path, ".ts") + ".ts";
    }
  }

  /** The owner and the role of each of a recording's four names can be read off the name; so the
      four differ, and no other recording uses any of them. */
  lemma {:induction false} NamesTellOwner(path: string)
    requires IsRecording(path)
    ensures RoleOf(path) == Role(false, false) && OwnerOf(path) == path
    ensures RoleOf(SidecarPath(path)) == Role(false, true) && OwnerOf(SidecarPath(path)) == path
    ensures RoleOf(PartialName(path)) == Role(true, false) && OwnerOf(PartialName(path)) == path
    ensures RoleOf(PartialName(SidecarPath(path))) == Role(true, true)
          && OwnerOf(PartialName(SidecarPath(path))) == path
  {
    MediaName(path);
    SidecarName(path);
    StripRoundTrip(path, PARTIAL);
    StripRoundTrip(SidecarPath(path), PARTIAL);
  }
}
