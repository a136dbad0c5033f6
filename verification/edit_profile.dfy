/** The profile editor: the keyword list codec, the form prefill from the
    stored profile, and the update it issues on submit. */
module EditProfile {
  import opened Wrappers
  import opened Seqs
  import opened Text
  import opened Schema

  /** The signed-in identity: its id and, possibly, its email. */
  datatype AuthUser = AuthUser(id: string, email: Option<string>)

  /** The values of the profile form. Optional fields may be absent. */
  datatype ProfileForm = ProfileForm(
    firstName: string,
    lastName: string,
    email: string,
    phone: Option<string>,
    role: Option<string>,
    industry: Option<string>,
    subjectMatter: Option<string>,
    audience: Option<string>,
    usp: Option<string>,
    writingStyle: Option<string>,
    keywords: Option<string>,
    bio: Option<string>)

  /** The columns written to the signed-in user's row: every form field
      except the keyword text, plus the parsed keyword list. */
  datatype ProfileUpdate = ProfileUpdate(
    firstName: string,
    lastName: string,
    email: string,
    phone: Option<string>,
    role: Option<string>,
    industry: Option<string>,
    subjectMatter: Option<string>,
    audience: Option<string>,
    usp: Option<string>,
    writingStyle: Option<string>,
    bio: Option<string>,
    keywords: Option<seq<string>>)

  /** What a submission does. */
  datatype Submission =
    | Invalid                                         // a field fails the form schema: nothing is issued
    | NotAuthenticated                                // the mutation throws before any update
    | UpdateIssued(authId: string, update: ProfileUpdate)  // the update, for rows whose auth_id is authId

  /** `ks` is `s` cut at every comma, each piece trimmed, in input order. */
  ghost predicate TrimmedPiecesOf(ks: seq<string>, s: string) {
    exists pieces ::
      && Join(pieces, ",") == s
      && |pieces| == |ks|
      && (forall i :: 0 <= i < |pieces| ==> ',' !in pieces[i])
      && (forall i :: 0 <= i < |ks| ==> ks[i] == Trim(pieces[i]))
  }

  /** Each piece trimmed, in order. */
  function TrimEach(pieces: seq<string>): (r: seq<string>)
    ensures |r| == |pieces|
    ensures forall i :: 0 <= i < |r| ==> r[i] == Trim(pieces[i])
  {
    seq(|pieces|, i requires 0 <= i < |pieces| => Trim(pieces[i]))
  }

  /** Keyword text to the stored list: absent or empty text is `null`;
      otherwise the text is split at every comma and each piece trimmed. */
  function ParseKeywords(text: Option<string>): (r: Option<seq<string>>)
    ensures r.None? <==> (text.None? || text.value == "")
    ensures r.Some? ==> |r.value| == Count(text.value, ',') + 1
    ensures r.Some? ==> forall i :: 0 <= i < |r.value| ==> ',' !in r.value[i] && IsTrimmed(r.value[i])
    ensures r.Some? ==> TrimmedPiecesOf(r.value, text.value)
  {
    if text.None? || text.value == "" then None
    else
      var pieces := Split(text.value, ',');
      var ks := TrimEach(pieces);
      forall i | 0 <= i < |ks| ensures ',' !in ks[i] {
        TrimSubset(pieces[i], ',');
      }
      Some(ks)
  }

  /** Stored list to keyword text: no list is empty text; otherwise the
      keywords joined by ", ". */
  function FormatKeywords(keywords: Option<seq<string>>): (r: string)
    ensures keywords.None? ==> r == ""
    ensures keywords.Some? ==> r == Join(keywords.value, ", ")
  {
    match keywords
    case None => ""
    case Some(ks) => Join(ks, ", ")
  }

  /** Text that the stored list `ks` can come back from unchanged. */
  predicate Storable(ks: seq<string>) {
    && ks != [] && ks != [""]
    && forall i :: 0 <= i < |ks| ==> ',' !in ks[i] && IsTrimmed(ks[i])
  }

  /** Cutting `q + Join(ks, ", ")` at commas gives `q + ks[0]` followed by
      each later keyword with the space the separator left in front of it. */
  lemma {:induction false} SplitJoined(q: string, ks: seq<string>)
    requires ',' !in q
    requires |ks| > 0
    requires forall i :: 0 <= i < |ks| ==> ',' !in ks[i]
    ensures |Split(q + Join(ks, ", "), ',')| == |ks|
    ensures Split(q + Join(ks, ", "), ',')[0] == q + ks[0]
    ensures forall i :: 1 <= i < |ks| ==> Split(q + Join(ks, ", "), ',')[i] == " " + ks[i]
    decreases |ks|
  {
    if |ks| == 1 {
      assert ',' !in q + ks[0];
      SplitNoSeparator(q + ks[0], ',');
    } else {
      var tail := Join(ks[1..], ", ");
      assert q + Join(ks, ", ") == (q + ks[0]) + [','] + (" " + tail);
      assert ',' !in q + ks[0];
      SplitAtFirst(q + ks[0], ',', " " + tail);
      SplitJoined(" ", ks[1..]);
    }
  }

  /** Parsing non-empty text whose trimmed pieces are `ks` gives `ks`. */
  lemma ParsedFromPieces(text: string, ks: seq<string>)
    requires text != ""
    requires |Split(text, ',')| == |ks|
    requires forall i :: 0 <= i < |ks| ==> Trim(Split(text, ',')[i]) == ks[i]
    ensures ParseKeywords(Some(text)) == Some(ks)
  {
    assert TrimEach(Split(text, ',')) == ks;
  }

  /** The text of a storable list is not empty. */
  lemma FormattedNotEmpty(ks: seq<string>)
    requires Storable(ks)
    ensures FormatKeywords(Some(ks)) != ""
  {
    if |ks| > 1 {
      assert Join(ks, ", ") == ks[0] + ", " + Join(ks[1..], ", ");
    }
  }

  /** Round trip: formatting a storable list and parsing the text back
      gives the same list. */
  lemma {:induction false} KeywordsRoundTrip(ks: seq<string>)
    requires Storable(ks)
    ensures ParseKeywords(Some(FormatKeywords(Some(ks)))) == Some(ks)
  {
    var text := FormatKeywords(Some(ks));
    FormattedNotEmpty(ks);
    assert |Split(text, ',')| == |ks| && forall i :: 0 <= i < |ks| ==> Trim(Split(text, ',')[i]) == ks[i] by {
      SplitJoined("", ks);
      assert "" + Join(ks, ", ") == text;
      forall i | 0 <= i < |ks| ensures Trim(Split(text, ',')[i]) == ks[i] {
        if i == 0 {
          TrimTrimmed(ks[0]);
        } else {
          TrimSpaced(ks[i]);
        }
      }
    }
    ParsedFromPieces(text, ks);
  }

  /** An empty stored list is written back as `null`: the text it shows is
      empty, and empty text parses to no list. */
  lemma EmptyListBecomesNull()
    ensures ParseKeywords(Some(FormatKeywords(Some([])))) == None
  {
  }

  /** `x || ""` for an optional stored string. */
  function OrEmpty(s: Option<string>): (r: string) {
    s.GetOr("")
  }

  /** The form values shown for a stored profile: each missing field shows
      as "", and a missing or empty profile email falls back to the signed-in
      identity's email. */
  function Prefill(profile: User, auth: Option<AuthUser>): (f: ProfileForm)
    ensures f.firstName == profile.firstName && f.lastName == profile.lastName
    ensures profile.email != "" ==> f.email == profile.email
    ensures profile.email == "" && auth.Some? && auth.value.email.Some? ==> f.email == auth.value.email.value
    ensures profile.email == "" && (auth.None? || auth.value.email.None?) ==> f.email == ""
    ensures f.phone == Some(OrEmpty(profile.phone))
    ensures f.role == Some(RoleName(profile.role))
    ensures f.industry == Some(OrEmpty(profile.industry))
    ensures f.subjectMatter == Some(OrEmpty(profile.subjectMatter))
    ensures f.audience == Some(OrEmpty(profile.audience))
    ensures f.usp == Some(OrEmpty(profile.usp))
    ensures f.writingStyle == Some(OrEmpty(profile.writingStyle))
    ensures f.bio == Some(OrEmpty(profile.bio))
    ensures f.keywords == Some(FormatKeywords(profile.keywords))
  {
    var authEmail := if auth.Some? then OrEmpty(auth.value.email) else "";
    ProfileForm(
      profile.firstName,
      profile.lastName,
      if profile.email != "" then profile.email else authEmail,
      Some(OrEmpty(profile.phone)),
      Some(RoleName(profile.role)),
      Some(OrEmpty(profile.industry)),
      Some(OrEmpty(profile.subjectMatter)),
      Some(OrEmpty(profile.audience)),
      Some(OrEmpty(profile.usp)),
      Some(OrEmpty(profile.writingStyle)),
      Some(FormatKeywords(profile.keywords)),
      Some(OrEmpty(profile.bio)))
  }

  /** The form schema: both names non-empty and the email well formed;
      `isEmail` stands for the schema library's email check. */
  predicate IsValid(f: ProfileForm, isEmail: string -> bool)
    ensures IsValid(f, isEmail) <==> f.firstName != "" && f.lastName != "" && isEmail(f.email)
  {
    Utf16Length(f.firstName) >= 1 && Utf16Length(f.lastName) >= 1 && isEmail(f.email)
  }

  /** The update built from valid form values. */
  function UpdateFor(f: ProfileForm): (u: ProfileUpdate)
    ensures u.firstName == f.firstName && u.lastName == f.lastName && u.email == f.email
    ensures u.phone == f.phone && u.role == f.role && u.industry == f.industry
    ensures u.subjectMatter == f.subjectMatter && u.audience == f.audience
    ensures u.usp == f.usp && u.writingStyle == f.writingStyle && u.bio == f.bio
    ensures u.keywords.None? <==> (f.keywords.None? || f.keywords.value == "")
    ensures u.keywords.Some? ==> TrimmedPiecesOf(u.keywords.value, f.keywords.value)
  {
    ProfileUpdate(f.firstName, f.lastName, f.email, f.phone, f.role, f.industry,
                  f.subjectMatter, f.audience, f.usp, f.writingStyle, f.bio,
                  ParseKeywords(f.keywords))
  }

  /** Submitting the form: the schema is checked first, then the signed-in
      identity; only then is the update issued. */
  function Submit(f: ProfileForm, auth: Option<AuthUser>, isEmail: string -> bool): (s: Submission)
    ensures !IsValid(f, isEmail) ==> s == Invalid
    ensures IsValid(f, isEmail) && (auth.None? || auth.value.id == "") ==> s == NotAuthenticated
    ensures s.UpdateIssued? <==> IsValid(f, isEmail) && auth.Some? && auth.value.id != ""
    ensures s.UpdateIssued? ==> s.authId == auth.value.id && s.update == UpdateFor(f)
  {
    if !IsValid(f, isEmail) then Invalid
    else if auth.None? || auth.value.id == "" then NotAuthenticated
    else UpdateIssued(auth.value.id, UpdateFor(f))
  }

  /** Saving the prefilled form unchanged writes the stored names, role and
      email back, turns each missing optional field into "", and keeps a
      missing or storable keyword list. */
  lemma {:induction false} SaveUnchanged(profile: User, auth: AuthUser, isEmail: string -> bool)
    requires auth.id != ""
    requires profile.firstName != "" && profile.lastName != "" && profile.email != ""
    requires isEmail(profile.email)
    requires profile.keywords.None? || Storable(profile.keywords.value)
    ensures Submit(Prefill(profile, Some(auth)), Some(auth), isEmail).UpdateIssued?
    ensures var u := Submit(Prefill(profile, Some(auth)), Some(auth), isEmail).update;
      && u.firstName == profile.firstName && u.lastName == profile.lastName
      && u.email == profile.email
      && u.role == Some(RoleName(profile.role))
      && u.phone == Some(OrEmpty(profile.phone))
      && u.industry == Some(OrEmpty(profile.industry))
      && u.subjectMatter == Some(OrEmpty(profile.subjectMatter))
      && u.audience == Some(OrEmpty(profile.audience))
      && u.usp == Some(OrEmpty(profile.usp))
      && u.writingStyle == Some(OrEmpty(profile.writingStyle))
      && u.bio == Some(OrEmpty(profile.bio))
      && u.keywords == profile.keywords
  {
    var f := Prefill(profile, Some(auth));
    assert Utf16Length(f.firstName) >= 1 && Utf16Length(f.lastName) >= 1;
    if profile.keywords.Some? {
      KeywordsRoundTrip(profile.keywords.value);
    }
  }
}
