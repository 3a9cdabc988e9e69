/** `/api/bird-icons`: a signed-in user submits an icon for a species
    (POST); moderators and administrators list the submissions (GET). The
    file upload is a parameter: given the file and the uploader it yields
    the stored file's URL or the failure the upload raised. */
module BirdIcons {
  import opened Http
  import opened Store

  /** `submitBirdIconSchema`: a species name of 1 to 100 characters; a
      missing form field is `null` and fails. */
  predicate SpeciesValid(birdSpecies: Option<string>) {
    birdSpecies.Some? && 1 <= |birdSpecies.value| <= 100
  }

  /** The checks before the upload: the species schema first (a schema
      failure is not an application error, so 500), then the file must be
      there (400). */
  function CheckSubmission(birdSpecies: Option<string>, icon: Option<string>): (r: Option<Failure>)
    ensures !SpeciesValid(birdSpecies) ==> r == Some(Internal)
    ensures SpeciesValid(birdSpecies) && icon.None? ==> r == Some(BadRequest)
    ensures r.None? <==> SpeciesValid(birdSpecies) && icon.Some?
  {
    if !SpeciesValid(birdSpecies) then Some(Internal)
    else if icon.None? then Some(BadRequest)
    else None
  }

  /** POST: no session, 401; failed checks or a failed upload store
      nothing; otherwise one submission with the uploaded URL and the
      caller as submitter (201). The species is checked but not stored. */
  method Submit(db: Db, session: Option<Session>, birdSpecies: Option<string>, icon: Option<string>,
                upload: (string, int) -> Checked<string>, now: int)
    returns (r: Response<IconSubmission>)
    requires db.Valid()
    modifies db
    ensures db.Valid()
    ensures session.None? ==> r == Err(Unauthorized)
    ensures session.Some? && CheckSubmission(birdSpecies, icon).Some? ==>
              r == Err(CheckSubmission(birdSpecies, icon).value)
    ensures session.Some? && CheckSubmission(birdSpecies, icon).None? &&
            upload(icon.value, session.value.userId).Reject? ==>
              r == Err(upload(icon.value, session.value.userId).failure)
    ensures r.Err? ==> db.Snapshot() == old(db.Snapshot())
    ensures session.Some? && CheckSubmission(birdSpecies, icon).None? &&
            upload(icon.value, session.value.userId).Accept? ==>
              var row := IconSubmission(old(db.nextId), upload(icon.value, session.value.userId).value,
                                        session.value.userId, now);
              r == Ok(201, row) &&
              db.Snapshot() == old(db.Snapshot()).(submissions := old(db.submissions) + [row])
  {
    if session.None? {
      return Err(Unauthorized);
    }
    var refused := CheckSubmission(birdSpecies, icon);
    if refused.Some? {
      return Err(refused.value);
    }
    var uploaded := upload(icon.value, session.value.userId);
    if uploaded.Reject? {
      return Err(uploaded.failure);
    }
    var row := db.CreateSubmission(uploaded.value, session.value.userId, now);
    r := Ok(201, row);
  }

  /** GET: no session, 401; a plain user, 403; a moderator or an
      administrator gets every submission. */
  function List(session: Option<Session>, submissions: seq<IconSubmission>): (r: Response<seq<IconSubmission>>)
    ensures session.None? ==> r == Err(Unauthorized)
    ensures session.Some? && session.value.role == USER ==> r == Err(Forbidden)
    ensures r.Ok? <==> session.Some? && session.value.role in {ADMIN, MODERATOR}
    ensures r.Ok? ==> r.code == 200 && forall s :: s in r.body <==> s in submissions
  {
    if session.None? then Err(Unauthorized)
    else if session.value.role != ADMIN && session.value.role != MODERATOR then Err(Forbidden)
    else Ok(200, submissions)
  }
}
