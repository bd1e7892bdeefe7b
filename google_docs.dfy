/**
 * pipeline/google_docs_integration.py: the parts of `GoogleDocsUploader`
 * that do not talk to Google: configuration loading and validation, the
 * permission record `_share_document` sends, and `_markdown_to_plain`.
 * Authentication and the Docs/Drive API calls are not modelled.
 */
module GoogleDocs {
  import opened Base
  import opened Strings
  import Settings

  // ---------------------------------------------------------------------
  // Configuration
  // ---------------------------------------------------------------------

  const DefaultConfigPath := "config/google_docs.ini"

  /** The message of the `ImportError` raised without the Google client packages. */
  const PackagesMissing := "Google API packages not installed. Run:\npip install google-auth google-auth-oauthlib google-auth-httplib2 google-api-python-client"

  /** The keys the [google_docs] section must define. */
  const RequiredConfigKeys: seq<string> := ["credentials_file"]

  /** The first of `keys` the section lacks, as the validation loop meets them. */
  function FirstMissingKey(keys: seq<string>, section: Settings.Section): (k: Option<string>)
    ensures k.None? <==> forall i :: 0 <= i < |keys| ==> keys[i] in section
    ensures k.Some? ==> k.value in keys && k.value !in section
  {
    if keys == [] then None
    else if keys[0] !in section then Some(keys[0])
    else FirstMissingKey(keys[1..], section)
  }

  /** With the one required key, validation reports exactly its absence. */
  lemma RequiredKeyCheck(section: Settings.Section)
    ensures FirstMissingKey(RequiredConfigKeys, section) == if "credentials_file" in section then None else Some("credentials_file")
  {
    assert RequiredConfigKeys[1..] == [];
  }

  /**
   * `_load_config`: a missing file is a `FileNotFoundError`; a file without a
   * [google_docs] section or without one of its required keys is a
   * `ValueError`. `parse` is what `ConfigParser.read` makes of a file.
   */
  function LoadConfig(configPath: string, existing: set<string>, parse: string -> Settings.Sections): (r: Result<Settings.Sections>)
    ensures configPath !in existing ==> r == Err(FileNotFoundError("Config file not found: " + configPath))
    ensures configPath in existing && "google_docs" !in parse(configPath) ==>
      r == Err(ValueError("Missing [google_docs] section in config"))
    ensures configPath in existing && "google_docs" in parse(configPath) && "credentials_file" !in parse(configPath)["google_docs"] ==>
      r == Err(ValueError("Missing required config key: " + "credentials_file"))
  {
    if configPath !in existing then Err(FileNotFoundError("Config file not found: " + configPath))
    else
      var config := parse(configPath);
      if "google_docs" !in config then Err(ValueError("Missing [google_docs] section in config"))
      else
        RequiredKeyCheck(config["google_docs"]);
        var missing := FirstMissingKey(RequiredConfigKeys, config["google_docs"]);
        if missing.Some? then Err(ValueError("Missing required config key: " + missing.value))
        else Ok(config)
  }

  /** A configuration loads exactly when the file exists and names its credentials file; it is then the parsed file. */
  lemma LoadConfigSucceeds(configPath: string, existing: set<string>, parse: string -> Settings.Sections)
    ensures LoadConfig(configPath, existing, parse).Ok? <==>
      configPath in existing && "google_docs" in parse(configPath) && "credentials_file" in parse(configPath)["google_docs"]
    ensures LoadConfig(configPath, existing, parse).Ok? ==> LoadConfig(configPath, existing, parse).value == parse(configPath)
  {
    if configPath in existing && "google_docs" in parse(configPath) {
      var missing := FirstMissingKey(RequiredConfigKeys, parse(configPath)["google_docs"]);
      assert missing.None? <==> "credentials_file" in parse(configPath)["google_docs"] by {
        assert RequiredConfigKeys[0] == "credentials_file";
      }
    }
  }

  /**
   * `GoogleDocsUploader.__init__` up to authentication: `ImportError` without
   * the Google packages, then the configuration at the given path or
   * "config/google_docs.ini".
   */
  function NewUploaderConfig(configPath: Option<string>, googleAvailable: bool, existing: set<string>,
                             parse: string -> Settings.Sections): (r: Result<Settings.Sections>)
    ensures !googleAvailable ==> r.Err? && r.error.ImportError?
    ensures googleAvailable ==> r == LoadConfig(configPath.GetOr(DefaultConfigPath), existing, parse)
  {
    if !googleAvailable then Err(ImportError(PackagesMissing))
    else LoadConfig(configPath.GetOr(DefaultConfigPath), existing, parse)
  }

  /** Without a path the uploader reads config/google_docs.ini, as if it had been given. */
  lemma DefaultPathIsUsed(googleAvailable: bool, existing: set<string>, parse: string -> Settings.Sections)
    ensures NewUploaderConfig(None, googleAvailable, existing, parse) == NewUploaderConfig(Some(DefaultConfigPath), googleAvailable, existing, parse)
    ensures googleAvailable && DefaultConfigPath !in existing ==>
      NewUploaderConfig(None, googleAvailable, existing, parse) == Err(FileNotFoundError("Config file not found: " + DefaultConfigPath))
  {
  }

  // ---------------------------------------------------------------------
  // _share_document
  // ---------------------------------------------------------------------

  /** The permission body: `type`, `role`, and `domain` or `emailAddress` when set. */
  datatype Permission = Permission(kind: string, role: string, domain: Option<string>, emailAddress: Option<string>)

  /**
   * `_share_document`'s permission: "user" if the target has an '@', else
   * "anyone"; then a "domain:X" target becomes a domain grant for X, the
   * target "anyone" stays a public grant, and any other target is sent as the
   * email address.
   */
  function SharePermission(target: string, role: string): (r: Permission)
    ensures r.role == role
    ensures StartsWith(target, "domain:") ==> r == Permission("domain", role, Some(target[7..]), None)
    ensures !StartsWith(target, "domain:") && target == "anyone" ==> r == Permission("anyone", role, None, None)
    ensures !StartsWith(target, "domain:") && target != "anyone" ==>
      r.emailAddress == Some(target) && r.domain.None? && (r.kind == "user" <==> '@' in target)
  {
    var kind := if '@' in target then "user" else "anyone";
    if StartsWith(target, "domain:") then
      // `split(":", 1)[1]`: "domain" has no ':', so the first one is at index 6.
      Permission("domain", role, Some(target[7..]), None)
    else if target == "anyone" then Permission("anyone", role, None, None)
    else Permission(kind, role, None, Some(target))
  }

  /** The kind is one of the three grant types, and only a domain grant carries a domain. */
  lemma PermissionShape(target: string, role: string)
    ensures var r := SharePermission(target, role);
      && (r.kind == "user" || r.kind == "anyone" || r.kind == "domain")
      && (r.domain.Some? <==> r.kind == "domain")
      && (r.kind == "user" ==> r.emailAddress == Some(target) && '@' in target)
  {
  }

  /** `domain:` followed by a domain grants exactly that domain. */
  lemma DomainRoundTrip(domain: string, role: string)
    ensures SharePermission("domain:" + domain, role) == Permission("domain", role, Some(domain), None)
  {
    var t := "domain:" + domain;
    assert t[..7] == "domain:" && t[7..] == domain;
  }

  /** A target that is no email, no domain and not "anyone" is still sent as a public grant, with that text as the address. */
  lemma NonEmailIsPublicGrant(target: string, role: string)
    requires '@' !in target && !StartsWith(target, "domain:")
    ensures SharePermission(target, role).kind == "anyone"
  {
  }

  // ---------------------------------------------------------------------
  // _markdown_to_plain
  // ---------------------------------------------------------------------

  /** `_markdown_to_plain`: drop "**", "__", '*' and '_', then turn "- [ ]" into "☐" and "- [x]" into "☑". */
  function MarkdownToPlain(markdown: string): string
  {
    var t := Replace(Replace(markdown, "**", ""), "__", "");
    var u := Replace(Replace(t, "*", ""), "_", "");
    Replace(Replace(u, "- [ ]", "☐"), "- [x]", "☑")
  }

  /** The plain text holds no '*' and no '_'. */
  lemma NoEmphasisMarks(markdown: string)
    ensures '*' !in MarkdownToPlain(markdown) && '_' !in MarkdownToPlain(markdown)
  {
    var t := Replace(Replace(markdown, "**", ""), "__", "");
    var t3 := Replace(t, "*", "");
    var u := Replace(t3, "_", "");
    ReplaceRemovesChar(t, '*', "");
    ReplaceKeepsAbsent(t3, "_", "", '*');
    ReplaceRemovesChar(t3, '_', "");
    var v := Replace(u, "- [ ]", "☐");
    ReplaceKeepsAbsent(u, "- [ ]", "☐", '*');
    ReplaceKeepsAbsent(u, "- [ ]", "☐", '_');
    ReplaceKeepsAbsent(v, "- [x]", "☑", '*');
    ReplaceKeepsAbsent(v, "- [x]", "☑", '_');
  }

  /** Text without '*', '_' and '[' passes through unchanged. */
  lemma PlainTextUnchanged(s: string)
    requires '*' !in s && '_' !in s && '[' !in s
    ensures MarkdownToPlain(s) == s
  {
    AbsentCharNoOccurrence("**", s, '*');
    ReplaceAbsent(s, "**", "");
    AbsentCharNoOccurrence("__", s, '_');
    ReplaceAbsent(s, "__", "");
    AbsentCharNoOccurrence("*", s, '*');
    ReplaceAbsent(s, "*", "");
    AbsentCharNoOccurrence("_", s, '_');
    ReplaceAbsent(s, "_", "");
    AbsentCharNoOccurrence("- [ ]", s, '[');
    ReplaceAbsent(s, "- [ ]", "☐");
    AbsentCharNoOccurrence("- [x]", s, '[');
    ReplaceAbsent(s, "- [x]", "☑");
  }

  /** The first four replacements leave a text without '*' and '_' as it is. */
  lemma NoEmphasisKept(s: string)
    requires '*' !in s && '_' !in s
    ensures Replace(Replace(Replace(Replace(s, "**", ""), "__", ""), "*", ""), "_", "") == s
  {
    AbsentCharNoOccurrence("**", s, '*');
    ReplaceAbsent(s, "**", "");
    AbsentCharNoOccurrence("__", s, '_');
    ReplaceAbsent(s, "__", "");
    AbsentCharNoOccurrence("*", s, '*');
    ReplaceAbsent(s, "*", "");
    AbsentCharNoOccurrence("_", s, '_');
    ReplaceAbsent(s, "_", "");
  }

  /** An open checkbox item becomes a ballot box, its text kept. */
  lemma OpenCheckbox(rest: string)
    requires '*' !in rest && '_' !in rest && '[' !in rest
    ensures MarkdownToPlain("- [ ]" + rest) == "☐" + rest
  {
    NoEmphasisKept("- [ ]" + rest);
    ReplaceAtStart("- [ ]", rest, "☐");
    AbsentCharNoOccurrence("- [ ]", rest, '[');
    ReplaceAbsent(rest, "- [ ]", "☐");
    ReplaceSkip("☐", rest, "- [x]", "☑");
    AbsentCharNoOccurrence("- [x]", rest, '[');
    ReplaceAbsent(rest, "- [x]", "☑");
  }

  /** A ticked checkbox item becomes a checked ballot box, its text kept. */
  lemma TickedCheckbox(rest: string)
    requires '*' !in rest && '_' !in rest && '[' !in rest
    ensures MarkdownToPlain("- [x]" + rest) == "☑" + rest
  {
    var s := "- [x]" + rest;
    NoEmphasisKept(s);
    assert !Occurs("- [ ]", s) by {
      forall i | 0 <= i <= |s| - 5
        ensures !OccursAt("- [ ]", s, i)
      {
        assert s[i..i + 5][2] == s[i + 2] && s[i..i + 5][3] == s[i + 3];
        if i == 0 {
          assert s[3] == 'x';
        } else if i < 3 {
          assert s[i + 2] != '[';
        } else {
          assert s[i + 2] == rest[i - 3];
        }
      }
    }
    ReplaceAbsent(s, "- [ ]", "☐");
    ReplaceAtStart("- [x]", rest, "☑");
    AbsentCharNoOccurrence("- [x]", rest, '[');
    ReplaceAbsent(rest, "- [x]", "☑");
  }
}
