/**
 * scripts/copy-supabase-credentials.js: read another project's `.env`, pick the Supabase
 * credentials (a `VITE_`-prefixed name first, the plain name second) and lay out the text of
 * OnTurn's `.env.local`. Reading and writing files are inputs here: the source file's content
 * (None when it cannot be read), whether the write succeeds, and the formatted date.
 */
module CredentialCopy {
  import opened Common
  import opened JsString
  import opened EnvFile

  /** `vars.VITE_NAME || vars.NAME` */
  function Pick(vars: map<string, string>, name: string): (r: Option<string>)
    ensures Lookup(vars, "VITE_" + name).Some? && vars["VITE_" + name] != "" ==> r == Some(vars["VITE_" + name])
    ensures Lookup(vars, "VITE_" + name).None? || vars["VITE_" + name] == "" ==> r == Lookup(vars, name)
  {
    Or(Lookup(vars, "VITE_" + name), Lookup(vars, name))
  }

  /** The first line of the template. */
  const Banner := "# Supabase - " + "Credenciales copiadas " + "desde CyberCita"

  /** The last line of the template: the VAPID key, or a commented-out placeholder. */
  function VapidLine(vapid: Option<string>): string {
    if Truthy(vapid) then VapidVar + "=" + vapid.value
    else "# " + VapidVar + "=tu_vapid_public_key"
  }

  /** The lines of the generated `.env.local`; the template ends with a newline, hence the empty last line. */
  function GeneratedLines(url: string, key: string, vapid: Option<string>, stamp: string): (r: seq<string>)
    ensures |r| == 7
  {
    [ Banner,
      "# Generado autom\U{E1}ticamente el " + stamp,
      "",
      UrlVar + "=" + url,
      AnonKeyVar + "=" + key,
      VapidLine(vapid),
      "" ]
  }

  /** The template string, one line after another. */
  function Generate(url: string, key: string, vapid: Option<string>, stamp: string): string {
    Join(GeneratedLines(url, key, vapid, stamp), '\n')
  }

  /** What a run of the script ends in. */
  datatype CopyOutcome =
    | ReadFailed                   // the `.env` could not be read: exit 1
    | CredentialsMissing           // no URL or no anon key: exit 1, nothing written
    | WriteFailed(content: string) // writing `.env.local` failed: exit 1
    | Written(content: string)     // `.env.local` now holds `content`

  /** The outcome of a run, on the parsed dictionary. */
  function Outcome(source: Option<map<string, string>>, stamp: string, writeOk: bool): (r: CopyOutcome)
    ensures source.None? <==> r == ReadFailed
    ensures source.Some? ==> (r == CredentialsMissing <==> !Truthy(Pick(source.value, "SUPABASE_URL")) || !Truthy(Pick(source.value, "SUPABASE_ANON_KEY")))
    ensures r.Written? ==> writeOk
  {
    if source.None? then ReadFailed
    else
      var url := Pick(source.value, "SUPABASE_URL");
      var key := Pick(source.value, "SUPABASE_ANON_KEY");
      var vapid := Pick(source.value, "VAPID_PUBLIC_KEY");
      if !Truthy(url) || !Truthy(key) then CredentialsMissing
      else
        var content := Generate(url.value, key.value, vapid, stamp);
        if writeOk then Written(content) else WriteFailed(content)
  }

  /** The process exit status of a run. */
  function ExitCode(o: CopyOutcome): int {
    if o.Written? then 0 else 1
  }

  /** The script: parse the source file, pick the credentials, generate and write. */
  method CopyCredentials(source: Option<string>, stamp: string, writeOk: bool) returns (outcome: CopyOutcome, exitCode: int)
    ensures outcome == Outcome(if source.None? then None else Some(Collect(Split(source.value, '\n'))), stamp, writeOk)
    ensures exitCode == ExitCode(outcome)
  {
    if source.None? {
      return ReadFailed, 1;
    }
    var vars := ParseEnv(source.value);
    var url := Pick(vars, "SUPABASE_URL");
    var key := Pick(vars, "SUPABASE_ANON_KEY");
    var vapid := Pick(vars, "VAPID_PUBLIC_KEY");
    if !Truthy(url) || !Truthy(key) {
      return CredentialsMissing, 1;
    }
    var content := Generate(url.value, key.value, vapid, stamp);
    if writeOk {
      outcome, exitCode := Written(content), 0;
    } else {
      outcome, exitCode := WriteFailed(content), 1;
    }
  }

  // ---------------------------------------------------------------------------------
  // The generated file read back by the same parser.
  // The first lemmas below are helpers: facts about the template's string literals
  // that the round-trip proof uses. They state nothing about the script on their own.

  /** The three variable names are keys the parser reads back as written. */
  lemma NamesAreGoodKeys()
    ensures GoodKey(UrlVar) && GoodKey(AnonKeyVar) && GoodKey(VapidVar)
  {
    UrlVarGood();
    AnonKeyVarGood();
    VapidVarGood();
  }

  lemma UrlVarGood()
    ensures GoodKey(UrlVar)
  {
  }

  lemma AnonKeyVarGood()
    ensures GoodKey(AnonKeyVar)
  {
  }

  lemma VapidVarGood()
    ensures GoodKey(VapidVar)
  {
  }

  /** The fixed text of the template holds no newline. */
  lemma FixedTextOneLine()
    ensures '\n' !in Banner && '\n' !in "# Generado autom\U{E1}ticamente el " && '\n' !in "=tu_vapid_public_key"
  {
    BannerOneLine();
    StampPrefixOneLine();
    PlaceholderOneLine();
  }

  lemma BannerOneLine()
    ensures '\n' !in Banner
  {
  }

  lemma StampPrefixOneLine()
    ensures '\n' !in "# Generado autom\U{E1}ticamente el "
  {
  }

  lemma PlaceholderOneLine()
    ensures '\n' !in "=tu_vapid_public_key"
  {
  }

  /** No line of the template holds a newline, given values that hold none. */
  lemma LinesHaveNoNewline(url: string, key: string, vapid: Option<string>, stamp: string)
    requires '\n' !in url && '\n' !in key && '\n' !in stamp && (vapid.Some? ==> '\n' !in vapid.value)
    ensures forall i | 0 <= i < 7 :: '\n' !in GeneratedLines(url, key, vapid, stamp)[i]
  {
    var lines := GeneratedLines(url, key, vapid, stamp);
    NamesAreGoodKeys();
    FixedTextOneLine();
    assert lines[0] == Banner;
    assert lines[1] == "# Generado autom\U{E1}ticamente el " + stamp;
    assert lines[3] == UrlVar + "=" + url;
    assert lines[4] == AnonKeyVar + "=" + key;
    assert '\n' !in lines[5];
  }

  /** Splitting the generated text at '\n' gives back the template's lines. */
  lemma GeneratedSplit(url: string, key: string, vapid: Option<string>, stamp: string)
    requires '\n' !in url && '\n' !in key && '\n' !in stamp && (vapid.Some? ==> '\n' !in vapid.value)
    ensures Split(Generate(url, key, vapid, stamp), '\n') == GeneratedLines(url, key, vapid, stamp)
  {
    LinesHaveNoNewline(url, key, vapid, stamp);
    SplitJoin(GeneratedLines(url, key, vapid, stamp), '\n');
  }

  /** The comment lines and the empty lines of the template define nothing. */
  lemma TemplateCommentsDefineNothing(url: string, key: string, vapid: Option<string>, stamp: string)
    ensures var e := Entries(GeneratedLines(url, key, vapid, stamp));
      e[0].None? && e[1].None? && e[2].None? && e[6].None?
    ensures !Truthy(vapid) ==> Entries(GeneratedLines(url, key, vapid, stamp))[5].None?
  {
    var lines := GeneratedLines(url, key, vapid, stamp);
    assert lines[0] == Banner && lines[2] == "" && lines[6] == "";
    assert lines[1] == "# Generado autom\U{E1}ticamente el " + stamp;
    CommentLine(Banner);
    CommentLine("# Generado autom\U{E1}ticamente el " + stamp);
    TrimUnchanged("");
    if !Truthy(vapid) {
      assert lines[5] == "# " + VapidVar + "=tu_vapid_public_key";
      CommentLine(lines[5]);
    }
  }

  /** The assignment lines of the template define their names as the given values. */
  lemma TemplateAssignments(url: string, key: string, vapid: Option<string>, stamp: string)
    requires Bare(url) && Bare(key) && (Truthy(vapid) ==> Bare(vapid.value))
    ensures var e := Entries(GeneratedLines(url, key, vapid, stamp));
      && e[3] == Some((UrlVar, url))
      && e[4] == Some((AnonKeyVar, key))
      && (Truthy(vapid) ==> e[5] == Some((VapidVar, vapid.value)))
  {
    var lines := GeneratedLines(url, key, vapid, stamp);
    NamesAreGoodKeys();
    assert lines[3] == UrlVar + "=" + url && lines[4] == AnonKeyVar + "=" + key;
    AssignmentLine(UrlVar, url);
    AssignmentLine(AnonKeyVar, key);
    if Truthy(vapid) {
      assert lines[5] == VapidVar + "=" + vapid.value;
      AssignmentLine(VapidVar, vapid.value);
    }
  }

  /** Over the template's seven entries, the fold keeps the three assignments. */
  lemma TemplateFold(e: seq<Option<(string, string)>>, url: string, key: string, vapid: Option<(string, string)>)
    requires |e| == 7 && e[0].None? && e[1].None? && e[2].None? && e[6].None?
    requires e[3] == Some((UrlVar, url)) && e[4] == Some((AnonKeyVar, key)) && e[5] == vapid
    requires vapid.Some? ==> vapid.value.0 == VapidVar
    ensures Lookup(Fold(e), UrlVar) == Some(url) && Lookup(Fold(e), AnonKeyVar) == Some(key)
    ensures Lookup(Fold(e), VapidVar) == if vapid.Some? then Some(vapid.value.1) else None
  {
    assert UrlVar != AnonKeyVar && UrlVar != VapidVar && AnonKeyVar != VapidVar;
    LastDefinitionWins(e, 3, UrlVar, url);
    LastDefinitionWins(e, 4, AnonKeyVar, key);
    DefinedKeys(e, VapidVar);
    if vapid.Some? {
      LastDefinitionWins(e, 5, VapidVar, vapid.value.1);
    }
  }

  /**
   * Round trip: parsing the generated file gives back the URL and the anon key unchanged,
   * the VAPID key when one was found, and no VAPID entry otherwise.
   */
  lemma GeneratedRoundTrip(url: string, key: string, vapid: Option<string>, stamp: string)
    requires Bare(url) && Bare(key) && '\n' !in stamp && (Truthy(vapid) ==> Bare(vapid.value))
    ensures var vars := Collect(Split(Generate(url, key, vapid, stamp), '\n'));
      && Lookup(vars, UrlVar) == Some(url)
      && Lookup(vars, AnonKeyVar) == Some(key)
      && Lookup(vars, VapidVar) == if Truthy(vapid) then Some(vapid.value) else None
  {
    if vapid.Some? && !Truthy(vapid) {
      assert vapid.value == "";
    }
    GeneratedSplit(url, key, vapid, stamp);
    TemplateCommentsDefineNothing(url, key, vapid, stamp);
    TemplateAssignments(url, key, vapid, stamp);
    var e := Entries(GeneratedLines(url, key, vapid, stamp));
    TemplateFold(e, url, key, e[5]);
  }

  /** A missing URL or anon key aborts before anything is generated or written. */
  lemma MissingCredentialsAbort(vars: map<string, string>, stamp: string, writeOk: bool)
    requires !Truthy(Pick(vars, "SUPABASE_URL")) || !Truthy(Pick(vars, "SUPABASE_ANON_KEY"))
    ensures Outcome(Some(vars), stamp, writeOk) == CredentialsMissing
    ensures ExitCode(Outcome(Some(vars), stamp, writeOk)) == 1
  {
  }

  /** The generated file defines the new names as exactly the values picked from the source. */
  lemma WrittenFileCarriesCredentials(vars: map<string, string>, stamp: string)
    requires var url := Pick(vars, "SUPABASE_URL"); var key := Pick(vars, "SUPABASE_ANON_KEY");
      var vapid := Pick(vars, "VAPID_PUBLIC_KEY");
      && Truthy(url) && Truthy(key) && Bare(url.value) && Bare(key.value) && '\n' !in stamp
      && (Truthy(vapid) ==> Bare(vapid.value))
    ensures var o := Outcome(Some(vars), stamp, true);
      && o.Written?
      && Lookup(Collect(Split(o.content, '\n')), UrlVar) == Pick(vars, "SUPABASE_URL")
      && Lookup(Collect(Split(o.content, '\n')), AnonKeyVar) == Pick(vars, "SUPABASE_ANON_KEY")
  {
    GeneratedRoundTrip(Pick(vars, "SUPABASE_URL").value, Pick(vars, "SUPABASE_ANON_KEY").value,
      Pick(vars, "VAPID_PUBLIC_KEY"), stamp);
  }
}
