/**
 * scripts/verify-setup.js: check OnTurn's `.env.local` and the project layout, collecting
 * errors and warnings, and exit with 1 exactly when there is an error. The file system is an
 * input: the content of `.env.local` (None when the file does not exist) and the set of paths,
 * relative to the project root, that exist. Console output is left out; what is reported is the
 * list of issues.
 */
module SetupCheck {
  import opened Common
  import opened JsString
  import opened EnvFile
  import CredentialCopy

  const RequiredVars := [UrlVar, AnonKeyVar]
  const RequiredDirs := ["app", "components", "lib", "hooks", "types"]
  const RequiredFiles := ["app/layout.tsx", "app/page.tsx", "lib/supabase/client.ts", "lib/supabase/server.ts", "middleware.ts"]

  /** One line of the report. */
  datatype Issue =
    | EnvFileMissing              // `.env.local` does not exist
    | RunCopyCredentials          // the hint pushed right after it
    | NotConfigured(name: string) // missing, empty or a placeholder value
    | NotAUrl(name: string)       // the URL does not start with `http`
    | KeyFormat(name: string)     // the anon key does not start with `eyJ`
    | NoVapidKey                  // no VAPID public key
    | DirMissing(dir: string)
    | FileMissing(file: string)

  /** What the check of one required variable adds to the report. */
  datatype Verdict = Fine | Fails(issue: Issue) | Warns(issue: Issue)

  /** The values the example configuration ships with. */
  predicate Placeholder(v: string) {
    v == "your_supabase_url" || v == "your_supabase_anon_key"
  }

  /** A required variable with a real value: defined, non-empty and not a placeholder. */
  predicate Configured(vars: map<string, string>, name: string) {
    Truthy(Lookup(vars, name)) && !Placeholder(vars[name])
  }

  /** The check of one required variable. */
  function CheckVar(vars: map<string, string>, name: string): Verdict {
    if !Configured(vars, name) then Fails(NotConfigured(name))
    else if name == UrlVar && !StartsWith(vars[name], "http") then Fails(NotAUrl(name))
    else if name == AnonKeyVar && !StartsWith(vars[name], "eyJ") then Warns(KeyFormat(name))
    else Fine
  }

  /** The errors the variable checks push, in order (written on the prefix, like the loop). */
  function VarErrors(vars: map<string, string>, names: seq<string>): seq<Issue> {
    if names == [] then []
    else
      var v := CheckVar(vars, names[|names| - 1]);
      VarErrors(vars, names[..|names| - 1]) + (if v.Fails? then [v.issue] else [])
  }

  /** The warnings the variable checks push, in order. */
  function VarWarnings(vars: map<string, string>, names: seq<string>): seq<Issue> {
    if names == [] then []
    else
      var v := CheckVar(vars, names[|names| - 1]);
      VarWarnings(vars, names[..|names| - 1]) + (if v.Warns? then [v.issue] else [])
  }

  function MissingIssue(path: string, isDir: bool): Issue {
    if isDir then DirMissing(path) else FileMissing(path)
  }

  /** The errors for the required paths that do not exist, in order. */
  function Missing(paths: seq<string>, present: set<string>, isDir: bool): seq<Issue> {
    if paths == [] then []
    else
      var p := paths[|paths| - 1];
      Missing(paths[..|paths| - 1], present, isDir) + (if p in present then [] else [MissingIssue(p, isDir)])
  }

  /** The parsed `.env.local`. */
  function Vars(content: string): map<string, string> {
    Collect(Split(content, '\n'))
  }

  /** Every error of a run, in the order the script pushes them. */
  function Errors(envFile: Option<string>, present: set<string>): seq<Issue> {
    (if envFile.None? then [EnvFileMissing, RunCopyCredentials] else VarErrors(Vars(envFile.value), RequiredVars))
    + Missing(RequiredDirs, present, true) + Missing(RequiredFiles, present, false)
  }

  /** Every warning of a run, in order; none when `.env.local` is missing. */
  function Warnings(envFile: Option<string>): seq<Issue> {
    if envFile.None? then []
    else
      var vars := Vars(envFile.value);
      VarWarnings(vars, RequiredVars) + (if Truthy(Lookup(vars, VapidVar)) then [] else [NoVapidKey])
  }

  /** `requiredVars.forEach(...)` */
  method CheckVars(vars: map<string, string>) returns (errors: seq<Issue>, warnings: seq<Issue>)
    ensures errors == VarErrors(vars, RequiredVars) && warnings == VarWarnings(vars, RequiredVars)
  {
    errors, warnings := [], [];
    var i := 0;
    while i < |RequiredVars|
      invariant 0 <= i <= |RequiredVars|
      invariant errors == VarErrors(vars, RequiredVars[..i])
      invariant warnings == VarWarnings(vars, RequiredVars[..i])
    {
      assert RequiredVars[..i + 1][..i] == RequiredVars[..i];
      var name := RequiredVars[i];
      var verdict := CheckVar(vars, name);
      if verdict.Fails? {
        errors := errors + [verdict.issue];
      } else if verdict.Warns? {
        warnings := warnings + [verdict.issue];
      }
      i := i + 1;
    }
    assert RequiredVars[..i] == RequiredVars;
  }

  /** `requiredDirs.forEach(...)` and `requiredFiles.forEach(...)`: push an error per missing path. */
  method CheckPaths(errors0: seq<Issue>, paths: seq<string>, present: set<string>, isDir: bool) returns (errors: seq<Issue>)
    ensures errors == errors0 + Missing(paths, present, isDir)
  {
    errors := errors0;
    var i := 0;
    while i < |paths|
      invariant 0 <= i <= |paths|
      invariant errors == errors0 + Missing(paths[..i], present, isDir)
    {
      assert paths[..i + 1][..i] == paths[..i];
      if paths[i] !in present {
        errors := errors + [MissingIssue(paths[i], isDir)];
      }
      i := i + 1;
    }
    assert paths[..i] == paths;
  }

  /** The script: the `.env.local` checks, the folder and file checks, then the exit decision. */
  method VerifySetup(envFile: Option<string>, present: set<string>) returns (errors: seq<Issue>, warnings: seq<Issue>, exitCode: int)
    ensures errors == Errors(envFile, present) && warnings == Warnings(envFile)
    ensures exitCode == 1 <==> errors != []
    ensures exitCode == 0 <==> errors == []
  {
    errors, warnings := [], [];
    if envFile.None? {
      errors := errors + [EnvFileMissing];
      errors := errors + [RunCopyCredentials];
    } else {
      var vars := ParseEnv(envFile.value);
      errors, warnings := CheckVars(vars);
      if !Truthy(Lookup(vars, VapidVar)) {
        warnings := warnings + [NoVapidKey];
      }
    }
    errors := CheckPaths(errors, RequiredDirs, present, true);
    errors := CheckPaths(errors, RequiredFiles, present, false);
    if |errors| > 0 {
      exitCode := 1;
    } else {
      exitCode := 0;
    }
  }

  // ---------------------------------------------------------------------------------
  // What the report says.

  /** The variable checks' errors and warnings: the URL's verdict, then the key's. */
  lemma RequiredVarLists(vars: map<string, string>)
    ensures var u, k := CheckVar(vars, UrlVar), CheckVar(vars, AnonKeyVar);
      && VarErrors(vars, RequiredVars) == (if u.Fails? then [u.issue] else []) + (if k.Fails? then [k.issue] else [])
      && VarWarnings(vars, RequiredVars) == (if u.Warns? then [u.issue] else []) + (if k.Warns? then [k.issue] else [])
  {
    var u, k := CheckVar(vars, UrlVar), CheckVar(vars, AnonKeyVar);
    assert RequiredVars[..1] == [UrlVar] && [UrlVar][..0] == [];
    assert VarErrors(vars, [UrlVar]) == if u.Fails? then [u.issue] else [];
    assert VarWarnings(vars, [UrlVar]) == if u.Warns? then [u.issue] else [];
  }

  /** The URL either fails as not configured, fails as not a URL, or passes; it never only warns. */
  lemma UrlVerdict(vars: map<string, string>)
    ensures CheckVar(vars, UrlVar) == if !Configured(vars, UrlVar) then Fails(NotConfigured(UrlVar))
      else if !StartsWith(vars[UrlVar], "http") then Fails(NotAUrl(UrlVar)) else Fine
  {
  }

  /** The key either fails as not configured, warns about its format, or passes. */
  lemma KeyVerdict(vars: map<string, string>)
    ensures CheckVar(vars, AnonKeyVar) == if !Configured(vars, AnonKeyVar) then Fails(NotConfigured(AnonKeyVar))
      else if !StartsWith(vars[AnonKeyVar], "eyJ") then Warns(KeyFormat(AnonKeyVar)) else Fine
  {
    assert |UrlVar| != |AnonKeyVar|;
  }

  /** The rules for the two required variables, each in both directions. */
  lemma RequiredVarRules(vars: map<string, string>)
    ensures NotConfigured(UrlVar) in VarErrors(vars, RequiredVars) <==> !Configured(vars, UrlVar)
    ensures NotAUrl(UrlVar) in VarErrors(vars, RequiredVars) <==> Configured(vars, UrlVar) && !StartsWith(vars[UrlVar], "http")
    ensures NotConfigured(AnonKeyVar) in VarErrors(vars, RequiredVars) <==> !Configured(vars, AnonKeyVar)
    ensures KeyFormat(AnonKeyVar) !in VarErrors(vars, RequiredVars)
    ensures KeyFormat(AnonKeyVar) in VarWarnings(vars, RequiredVars) <==> Configured(vars, AnonKeyVar) && !StartsWith(vars[AnonKeyVar], "eyJ")
    ensures VarWarnings(vars, RequiredVars) == [] <==> !(Configured(vars, AnonKeyVar) && !StartsWith(vars[AnonKeyVar], "eyJ"))
    ensures VarErrors(vars, RequiredVars) == [] <==>
      Configured(vars, UrlVar) && StartsWith(vars[UrlVar], "http") && Configured(vars, AnonKeyVar)
  {
    RequiredVarLists(vars);
    UrlVerdict(vars);
    KeyVerdict(vars);
    assert UrlVar != AnonKeyVar by {
      assert |UrlVar| != |AnonKeyVar|;
    }
  }

  /** A required path is reported exactly when it is missing. */
  lemma {:induction false} MissingExactly(paths: seq<string>, present: set<string>, isDir: bool, p: string)
    ensures MissingIssue(p, isDir) in Missing(paths, present, isDir) <==> p in paths && p !in present
  {
    if paths != [] {
      var init := paths[..|paths| - 1];
      MissingExactly(init, present, isDir, p);
      assert paths == init + [paths[|paths| - 1]];
    }
  }

  /** Each required folder and file is reported exactly when it does not exist. */
  lemma MissingPathsReported(envFile: Option<string>, present: set<string>, p: string)
    ensures DirMissing(p) in Errors(envFile, present) <==> p in RequiredDirs && p !in present
    ensures FileMissing(p) in Errors(envFile, present) <==> p in RequiredFiles && p !in present
  {
    var head := if envFile.None? then [EnvFileMissing, RunCopyCredentials] else VarErrors(Vars(envFile.value), RequiredVars);
    var dirs, files := Missing(RequiredDirs, present, true), Missing(RequiredFiles, present, false);
    assert Errors(envFile, present) == head + dirs + files;
    if envFile.Some? {
      VarErrorKinds(Vars(envFile.value), RequiredVars);
    }
    assert DirMissing(p) !in head && FileMissing(p) !in head;
    MissingExactly(RequiredDirs, present, true, p);
    MissingExactly(RequiredFiles, present, false, p);
    assert MissingIssue(p, true) == DirMissing(p) && MissingIssue(p, false) == FileMissing(p);
    MissingKinds(RequiredDirs, present, p);
    MissingKinds(RequiredFiles, present, p);
  }

  /** A missing-folder check reports folders only, a missing-file check files only. */
  lemma {:induction false} MissingKinds(paths: seq<string>, present: set<string>, p: string)
    ensures FileMissing(p) !in Missing(paths, present, true)
    ensures DirMissing(p) !in Missing(paths, present, false)
  {
    if paths != [] {
      MissingKinds(paths[..|paths| - 1], present, p);
    }
  }

  /** The variable checks only ever report a missing value or a malformed URL. */
  lemma {:induction false} VarErrorKinds(vars: map<string, string>, names: seq<string>)
    ensures forall x | x in VarErrors(vars, names) :: x.NotConfigured? || x.NotAUrl?
  {
    if names != [] {
      VarErrorKinds(vars, names[..|names| - 1]);
    }
  }

  /** Without `.env.local` the report opens with the missing-file error and its hint, and the run fails. */
  lemma MissingEnvFileFails(present: set<string>)
    ensures Errors(None, present)[..2] == [EnvFileMissing, RunCopyCredentials]
    ensures Warnings(None) == []
  {
  }

  /** An anon key of the wrong shape is only a warning: with everything else in place the run succeeds. */
  lemma KeyFormatOnlyWarns(content: string, present: set<string>)
    requires var vars := Vars(content);
      && Configured(vars, UrlVar) && StartsWith(vars[UrlVar], "http")
      && Configured(vars, AnonKeyVar) && !StartsWith(vars[AnonKeyVar], "eyJ")
    requires LayoutComplete(present)
    ensures Errors(Some(content), present) == []
    ensures KeyFormat(AnonKeyVar) in Warnings(Some(content))
  {
    RequiredVarRules(Vars(content));
    CompleteLayoutNoPathErrors(present);
  }

  /** Every required folder and file exists. */
  predicate LayoutComplete(present: set<string>) {
    (forall i | 0 <= i < |RequiredDirs| :: RequiredDirs[i] in present)
    && (forall i | 0 <= i < |RequiredFiles| :: RequiredFiles[i] in present)
  }

  /** With the whole layout in place the folder and file checks report nothing. */
  lemma CompleteLayoutNoPathErrors(present: set<string>)
    requires LayoutComplete(present)
    ensures Missing(RequiredDirs, present, true) == [] && Missing(RequiredFiles, present, false) == []
  {
    AllPresent(RequiredDirs, present, true);
    AllPresent(RequiredFiles, present, false);
  }

  /** With every required path present nothing is reported for paths. */
  lemma {:induction false} AllPresent(paths: seq<string>, present: set<string>, isDir: bool)
    requires forall i | 0 <= i < |paths| :: paths[i] in present
    ensures Missing(paths, present, isDir) == []
  {
    if paths != [] {
      AllPresent(paths[..|paths| - 1], present, isDir);
    }
  }

  /**
   * The file the credential-copy script writes passes this check, for credentials of the
   * expected shape: no errors, and a warning only when no VAPID key was copied.
   */
  lemma GeneratedFilePasses(url: string, key: string, vapid: Option<string>, stamp: string, present: set<string>)
    requires Bare(url) && Bare(key) && '\n' !in stamp && (Truthy(vapid) ==> Bare(vapid.value))
    requires StartsWith(url, "http") && StartsWith(key, "eyJ")
    requires LayoutComplete(present)
    ensures Errors(Some(CredentialCopy.Generate(url, key, vapid, stamp)), present) == []
    ensures Warnings(Some(CredentialCopy.Generate(url, key, vapid, stamp))) == if Truthy(vapid) then [] else [NoVapidKey]
  {
    var content := CredentialCopy.Generate(url, key, vapid, stamp);
    CredentialCopy.GeneratedRoundTrip(url, key, vapid, stamp);
    var vars := Vars(content);
    WellFormedCredentials(vars);
    CompleteLayoutNoPathErrors(present);
    assert Errors(Some(content), present) == VarErrors(vars, RequiredVars)
      + Missing(RequiredDirs, present, true) + Missing(RequiredFiles, present, false);
  }

  /** A URL starting with `http` and a key starting with `eyJ` draw neither errors nor warnings. */
  lemma WellFormedCredentials(vars: map<string, string>)
    requires UrlVar in vars && StartsWith(vars[UrlVar], "http")
    requires AnonKeyVar in vars && StartsWith(vars[AnonKeyVar], "eyJ")
    ensures VarErrors(vars, RequiredVars) == [] && VarWarnings(vars, RequiredVars) == []
  {
    assert vars[UrlVar][0] == 'h' && vars[AnonKeyVar][0] == 'e';
    RequiredVarRules(vars);
  }
}
