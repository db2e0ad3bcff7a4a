/**
 * Which session an account row resolves to (src/clients/session_resolve.py): the cheap probe that only
 * looks for files, and the full resolver that opens them.  The file system is an arbitrary oracle.
 */
module SessionResolve {
  import opened Common

  datatype Code = EmptySession | FileMissing | InvalidFormat | LegacyFormat
  datatype Kind = FileKind | StringKind | EmptyKind

  // What the two functions report; a home directory that cannot be resolved escapes as an exception.
  datatype Report = Report(kind: Kind, error: Option<Code>) | Raises

  datatype Material = NoSession | SqliteFile(path: string) | StringSession

  datatype FileTest = Present | Missing | TestFails
  datatype Opening = Readable | Unreadable | OpenFails

  // None from expand, resolve or canonical: the call raised.
  datatype Disk = Disk(
    expand: string -> Option<string>,
    resolve: string -> Option<string>,
    canonical: int -> Option<string>,
    test: string -> FileTest,
    open: string -> Opening,
    acceptsString: string -> bool)

  datatype Account = Account(id: Option<int>, sessionString: Option<string>, sessionPath: Option<string>)

  predicate EndsWith(s: string, suffix: string) { |suffix| <= |s| && s[|s| - |suffix|..] == suffix }

  function StripFileUrl(s: string): string {
    var t := Strip(s);
    Strip(if "file://" <= t then t[7..] else t)
  }

  predicate LooksLikePath(raw: string) {
    var s := Strip(raw);
    s != "" && ("file://" <= s || "/" <= s || "\\\\" <= s || (|s| > 2 && s[1] == ':') || '\\' in s || EndsWith(s, ".session"))
  }

  // What both functions make of an account row first: the trimmed texts, without file:// in front.
  datatype Inputs = Inputs(id: Option<int>, text: string, raw: string, path: Option<string>, looksLikePath: bool)

  function Read(a: Account): Inputs {
    var text, path := Strip(a.sessionString.GetOr("")), Strip(a.sessionPath.GetOr(""));
    Inputs(a.id, text, StripFileUrl(text), if path != "" then Some(StripFileUrl(path)) else None,
           LooksLikePath(StripFileUrl(text)))
  }

  function OneOf(path: Option<string>): seq<string> { if path.Some? then [path.value] else [] }

  // The candidate paths, in order, before repeats are skipped.
  function Candidates(n: Inputs, d: Disk): seq<string> {
    (if n.text != "" then OneOf(d.expand(n.raw)) else [])
    + (if n.path.Some? then OneOf(d.resolve(n.path.value)) else [])
    + (if n.id.Some? then OneOf(d.canonical(n.id.value)) else [])
  }

  predicate IsFile(d: Disk, path: string) { d.test(path) == Present }
  predicate OpensHere(d: Disk, path: string) { IsFile(d, path) && d.open(path) == Readable }
  predicate LegacyHere(d: Disk, path: string) { IsFile(d, path) && d.open(path) == Unreadable }

  predicate AnyFile(n: Inputs, d: Disk) { exists c :: c in Candidates(n, d) && IsFile(d, c) }
  predicate AnyReadable(n: Inputs, d: Disk) { exists c :: c in Candidates(n, d) && OpensHere(d, c) }
  predicate AnyLegacy(n: Inputs, d: Disk) { exists c :: c in Candidates(n, d) && LegacyHere(d, c) }

  // The part after the loop over files: the stored text as a path, then as a string session.
  function FromText(n: Inputs, d: Disk, sawLegacy: bool): Report {
    if n.text == "" then
      if sawLegacy then Report(FileKind, Some(LegacyFormat)) else Report(EmptyKind, Some(EmptySession))
    else if d.expand(n.raw).None? then Raises
    else if n.looksLikePath && d.test(d.expand(n.raw).value) != Present then Report(FileKind, Some(FileMissing))
    else if d.acceptsString(n.text) then Report(StringKind, None)
    else if sawLegacy then Report(FileKind, Some(LegacyFormat))
    else Report(StringKind, Some(InvalidFormat))
  }

  function Probed(n: Inputs, d: Disk): Report {
    if AnyFile(n, d) then Report(FileKind, None) else FromText(n, d, false)
  }

  predicate PrefersString(n: Inputs, d: Disk, prefer: bool) {
    prefer && n.text != "" && !n.looksLikePath && d.acceptsString(n.text)
  }

  function Resolved(n: Inputs, d: Disk, prefer: bool): Report {
    if PrefersString(n, d, prefer) then Report(StringKind, None)
    else if AnyReadable(n, d) then Report(FileKind, None)
    else FromText(n, d, AnyLegacy(n, d))
  }

  // The first candidate that opens, if any.
  function FirstReadable(d: Disk, paths: seq<string>): (m: Material)
    ensures m == NoSession <==> forall c :: c in paths ==> !OpensHere(d, c)
    ensures m != StringSession
  {
    if paths == [] then NoSession
    else if OpensHere(d, paths[0]) then SqliteFile(paths[0])
    else FirstReadable(d, paths[1..])
  }

  method CandidatePaths(n: Inputs, d: Disk) returns (paths: seq<string>)
    ensures paths == Candidates(n, d)
  {
    paths := [];
    if n.text != "" { paths := paths + OneOf(d.expand(n.raw)); }
    if n.path.Some? { paths := paths + OneOf(d.resolve(n.path.value)); }
    if n.id.Some? { paths := paths + OneOf(d.canonical(n.id.value)); }
  }

  // probe_telethon_session_kind
  method Probe(a: Account, d: Disk) returns (r: Report)
    ensures r == Probed(Read(a), d)
  {
    hide Read, Candidates, FromText;
    var n := Read(a);
    var paths := CandidatePaths(n, d);
    var seen: set<string> := {};
    for k := 0 to |paths|
      invariant forall c :: c in paths[..k] ==> c in seen
      invariant forall c :: c in seen ==> c in paths && !IsFile(d, c)
    {
      var path := paths[k];
      if path !in seen {
        seen := seen + {path};
        if d.test(path) == Present {
          assert IsFile(d, path) && path in Candidates(n, d);
          return Report(FileKind, None);
        }
      }
    }
    assert paths[..|paths|] == paths;
    r := FromText(n, d, false);
  }

  method OpenFirst(d: Disk, paths: seq<string>) returns (session: Material, sawLegacy: bool)
    ensures session == FirstReadable(d, paths)
    ensures session == NoSession ==> (sawLegacy <==> exists c :: c in paths && LegacyHere(d, c))
  {
    var seen: set<string> := {};
    sawLegacy := false;
    for k := 0 to |paths|
      invariant forall c :: c in paths[..k] ==> c in seen
      invariant forall c :: c in seen ==> c in paths && !OpensHere(d, c)
      invariant sawLegacy <==> exists c :: c in seen && LegacyHere(d, c)
      invariant FirstReadable(d, paths) == FirstReadable(d, paths[k..])
    {
      var path := paths[k];
      assert paths[k..][1..] == paths[k + 1..];
      if path !in seen {
        if d.test(path) == Present {
          match d.open(path)
          case Unreadable => sawLegacy := true; assert LegacyHere(d, path);
          case Readable => return SqliteFile(path), sawLegacy;
          case OpenFails =>
        }
        seen := seen + {path};
      }
    }
    assert paths[..|paths|] == paths;
    session := NoSession;
  }

  // resolve_telethon_session
  method Resolve(a: Account, d: Disk, prefer: bool) returns (session: Material, r: Report)
    ensures r == Resolved(Read(a), d, prefer)
    ensures session != NoSession <==> r.Report? && r.error.None?
    ensures session == StringSession <==> r == Report(StringKind, None)
    ensures r == Report(FileKind, None) ==> session == FirstReadable(d, Candidates(Read(a), d))
  {
    hide Read, Candidates;
    var n := Read(a);
    if prefer && n.text != "" && !n.looksLikePath {
      if d.acceptsString(n.text) { return StringSession, Report(StringKind, None); }
    }
    var paths := CandidatePaths(n, d);
    var sawLegacy;
    session, sawLegacy := OpenFirst(d, paths);
    if session != NoSession { return session, Report(FileKind, None); }
    r := FromText(n, d, sawLegacy);
    session := if r == Report(StringKind, None) then StringSession else NoSession;
  }

  // The probe agrees with the default resolver exactly when no candidate is a file, or some
  // candidate file opens: it is wrong precisely when all the files it found are unreadable.
  lemma ProbeAgreesIff(n: Inputs, d: Disk)
    ensures Probed(n, d) == Resolved(n, d, false) <==> !AnyFile(n, d) || AnyReadable(n, d)
  {
  }

  // Whatever the default resolver can use, the probe reports without error.
  lemma ResolvedIsProbedClean(n: Inputs, d: Disk)
    requires Resolved(n, d, false).Report? && Resolved(n, d, false).error.None?
    ensures Probed(n, d).Report? && Probed(n, d).error.None?
  {
  }

  // Preferring the string changes the answer exactly when a string that would be taken first has a
  // readable file, or an unresolvable home directory, to compete with.
  lemma PreferringStringMattersIff(n: Inputs, d: Disk)
    ensures Resolved(n, d, true) != Resolved(n, d, false) <==>
      PrefersString(n, d, true) && (AnyReadable(n, d) || d.expand(n.raw).None?)
  {
  }

  // The stored text names a file that is not there.
  predicate NamesMissingFile(n: Inputs, d: Disk) {
    n.looksLikePath && d.expand(n.raw).Some? && d.test(d.expand(n.raw).value) != Present
  }

  // Which report each situation calls for, once no string was preferred and no candidate opened.
  lemma ResolverReportIff(n: Inputs, d: Disk, prefer: bool)
    requires !PrefersString(n, d, prefer) && !AnyReadable(n, d)
    ensures var r := Resolved(n, d, prefer);
            var home := n.text != "" && d.expand(n.raw).Some?;
            var tried := home && !NamesMissingFile(n, d);
            && (r == Raises <==> n.text != "" && d.expand(n.raw).None?)
            && (r == Report(FileKind, Some(FileMissing)) <==> home && NamesMissingFile(n, d))
            && (r == Report(StringKind, None) <==> tried && d.acceptsString(n.text))
            && (r == Report(StringKind, Some(InvalidFormat)) <==> tried && !d.acceptsString(n.text) && !AnyLegacy(n, d))
            && (r == Report(FileKind, Some(LegacyFormat))
                <==> AnyLegacy(n, d) && (n.text == "" || (tried && !d.acceptsString(n.text))))
            && (r == Report(EmptyKind, Some(EmptySession)) <==> n.text == "" && !AnyLegacy(n, d))
            && r != Report(FileKind, None)
  {
    hide AnyReadable, AnyLegacy;
  }

  // The probe never tells an old database from a missing one: without a file it judges the text alone.
  lemma ProbeReportIff(n: Inputs, d: Disk)
    requires !AnyFile(n, d)
    ensures var r := Probed(n, d);
            var home := n.text != "" && d.expand(n.raw).Some?;
            var tried := home && !NamesMissingFile(n, d);
            && (r == Raises <==> n.text != "" && d.expand(n.raw).None?)
            && (r == Report(FileKind, Some(FileMissing)) <==> home && NamesMissingFile(n, d))
            && (r == Report(StringKind, None) <==> tried && d.acceptsString(n.text))
            && (r == Report(StringKind, Some(InvalidFormat)) <==> tried && !d.acceptsString(n.text))
            && (r == Report(EmptyKind, Some(EmptySession)) <==> n.text == "")
            && r != Report(FileKind, Some(LegacyFormat)) && r != Report(FileKind, None)
  {
    hide AnyFile;
  }

  // How stored text is taken

  // Absolute paths, UNC paths, drive letters, file URLs and session files are paths ...
  lemma PathsLookLikePaths(s: string)
    requires s != "" && Stripped(s)
    requires s[0] == '/' || '\\' in s || (|s| > 2 && s[1] == ':') || "file://" <= s
             || (|s| >= 8 && s[|s| - 8..] == ".session")
    ensures LooksLikePath(s)
  {
    assert Strip(s) == s;
    if s[0] == '/' { assert s[..1] == "/"; }
  }

  // ... and text without slashes, colons or dots, such as a string session, is not, nor is nothing.
  lemma StringsLookLikeStrings(s: string)
    requires forall k :: 0 <= k < |s| ==> s[k] != '/' && s[k] != '\\' && s[k] != ':' && s[k] != '.'
    ensures !LooksLikePath(s)
  {
    var t := Strip(s);
    assert forall c :: c in t ==> c in s;
    PrefixIsInside(t, "file://", 4);
    PrefixIsInside(t, "/", 0);
    PrefixIsInside(t, "\\\\", 0);
    SuffixIsInside(t, ".session");
  }

  lemma PrefixIsInside(t: string, prefix: string, k: nat)
    requires k < |prefix|
    ensures prefix <= t ==> prefix[k] in t
  {
  }

  lemma SuffixIsInside(t: string, suffix: string)
    requires suffix != ""
    ensures EndsWith(t, suffix) ==> suffix[0] in t
  {
    assert |suffix| <= |t| ==> t[|t| - |suffix|..][0] == t[|t| - |suffix|];
  }

  // A file URL is read without its scheme, other text as it is.
  lemma FileUrlIsStripped(s: string)
    requires Stripped(s)
    ensures s != "" ==> StripFileUrl("file://" + s) == s
    ensures !("file://" <= s) ==> StripFileUrl(s) == s
  {
    hide Strip;
    StripOfStripped(s);
    if s != "" { StripOfStripped("file://" + s); }
    assert ("file://" + s)[7..] == s;
  }

  lemma StripOfStripped(s: string)
    requires Stripped(s)
    ensures Strip(s) == s
  {
  }
}
