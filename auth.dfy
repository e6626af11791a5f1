/** AuthService: self-registration, the email verification that activates an
    account, and login, which checks the account and issues a session token. */
module Auth {
  import opened Common
  import opened Entities
  import opened Tables
  import opened Profiles
  import opened Jwt

  const Blocked := Forbidden("You're blocked!\nPlease contact with Admin!")

  /** getByEmail: the profile with that email, or "Not found!". */
  function GetByEmail(rows: map<Id, Profile>, email: string): (r: Result<Id>)
    requires EmailsUnique(rows)
    ensures r.Ok? ==> r.value in rows && rows[r.value].email == email
    ensures r.Err? <==> forall k :: k in rows ==> rows[k].email != email
    ensures r.Err? ==> r.error == NotFound("Not found!")
  {
    match FindByEmail(rows, email)
    case Some(id) => Ok(id)
    case None => Err(NotFound("Not found!"))
  }

  /** authorization: in this order, the email must belong to a profile, the
      profile must not be blocked, it must be ACTIVE, and the password must
      hash to the stored hash. */
  function Authorization(rows: map<Id, Profile>, md5: string -> string, email: string, password: string)
    : (r: Result<Id>)
    requires EmailsUnique(rows)
    ensures r.Ok? <==> (exists k :: k in rows && rows[k].email == email
                          && rows[k].status == ProfileStatus.ACTIVE && rows[k].password == md5(password))
    ensures r.Ok? ==> (r.value in rows && rows[r.value].email == email
                       && rows[r.value].status == ProfileStatus.ACTIVE && rows[r.value].password == md5(password))
    ensures (forall k :: k in rows ==> rows[k].email != email) ==> r == Err(NotFound("Not found!"))
    ensures forall k :: k in rows && rows[k].email == email ==>
      && (rows[k].status == ProfileStatus.BLOCK ==> r == Err(Blocked))
      && (rows[k].status == ProfileStatus.INACTIVE ==> r == Err(Forbidden("No Access!")))
      && (rows[k].status == ProfileStatus.ACTIVE && rows[k].password != md5(password) ==>
            r == Err(BadRequest("Invalid Password!")))
  {
    match GetByEmail(rows, email)
    case Err(e) => Err(e)
    case Ok(id) =>
      var entity := rows[id];
      if entity.status == ProfileStatus.BLOCK then Err(Blocked)
      else if entity.status != ProfileStatus.ACTIVE then Err(Forbidden("No Access!"))
      else if entity.password != md5(password) then Err(BadRequest("Invalid Password!"))
      else Ok(id)
  }

  /** What login hands back: the profile's name, surname and email and a
      session token. */
  datatype Session = Session(name: string, surname: string, email: string, jwt: string)

  /** A registration followed by the verification of its link lets the new
      user log in with the password chosen; before the verification the same
      login is refused with "No Access!". */
  lemma RegisterVerifyLogin(
    rows: map<Id, Profile>, md5: string -> string, id: Id,
    name: string, surname: string, email: string, password: string)
    requires EmailsUnique(rows) && id !in rows
    requires forall k :: k in rows ==> rows[k].email != email
    ensures var registered := rows[id := Profile(name, surname, email, md5(password), None, ProfileStatus.INACTIVE, USER, None)];
      && EmailsUnique(registered)
      && Authorization(registered, md5, email, password) == Err(Forbidden("No Access!"))
      && var verified := registered[id := registered[id].(status := ProfileStatus.ACTIVE)];
         EmailsUnique(verified) && Authorization(verified, md5, email, password) == Ok(id)
  {
    var registered := rows[id := Profile(name, surname, email, md5(password), None, ProfileStatus.INACTIVE, USER, None)];
    assert EmailsUnique(registered);
    var verified := registered[id := registered[id].(status := ProfileStatus.ACTIVE)];
    assert EmailsUnique(verified);
    assert verified[id].email == email;
  }

  class AuthService {
    const profiles: Table<Profile>
    /** DigestUtils.md5Hex. */
    const md5: string -> string

    ghost predicate Valid()
      reads this, profiles
    {
      profiles.Valid() && (forall a, b :: profiles.clash(a, b) == ProfilesClash(a, b))
    }

    constructor (profiles: Table<Profile>, md5: string -> string)
      requires profiles.Valid() && (forall a, b :: profiles.clash(a, b) == ProfilesClash(a, b))
      ensures Valid() && this.profiles == profiles && this.md5 == md5
    {
      this.profiles := profiles;
      this.md5 := md5;
    }

    /** login: authorization, then a session token for the profile's id and
        role. */
    method Login(codec: Codec, email: string, password: string, now: Instant) returns (r: Result<Session>)
      requires Valid()
      ensures r.Err? <==> Authorization(profiles.rows, md5, email, password).Err?
      ensures r.Err? ==> r.error == Authorization(profiles.rows, md5, email, password).error
      ensures r.Ok? ==>
        var id := Authorization(profiles.rows, md5, email, password).value;
        var entity := profiles.rows[id];
        && r.value == Session(entity.name, entity.surname, entity.email, r.value.jwt)
        && r.value.jwt == codec.compact(IssuedClaims(id, None, Some(entity.role), SessionMinutes, now), SecretKey)
        && (Sound(codec) ==> Decode(codec, r.value.jwt, now) == Ok(ProfileJwt(id, Some(entity.role), Some("null"))))
    {
      var authorized := Authorization(profiles.rows, md5, email, password);
      if authorized.Err? {
        return Err(authorized.error);
      }
      var entity := profiles.rows[authorized.value];
      ExpiryWithinASecond(now, SessionMinutes);
      var jwt := Encode(codec, authorized.value, entity.role, now);
      r := Ok(Session(entity.name, entity.surname, entity.email, jwt));
    }

    /** registration: a new email gets an INACTIVE USER profile with the hash
        of the password; an email whose profile is still INACTIVE is reused as
        it is; any other known email is refused. The result names the profile
        the verification link is sent to. */
    method Registration(name: string, surname: string, email: string, password: string) returns (r: Result<Id>)
      requires Valid()
      modifies profiles
      ensures Valid()
      ensures (exists k :: k in old(profiles.rows) && old(profiles.rows)[k].email == email) ==>
        && profiles.rows == old(profiles.rows)
        && (r.Ok? <==> (exists k :: k in old(profiles.rows) && old(profiles.rows)[k].email == email
                         && old(profiles.rows)[k].status == ProfileStatus.INACTIVE))
        && (r.Ok? ==> r.value in profiles.rows && profiles.rows[r.value].email == email)
        && (r.Err? ==> r.error == AlreadyExists("This Email already used!"))
      ensures (forall k :: k in old(profiles.rows) ==> old(profiles.rows)[k].email != email) ==>
        && r.Ok? && r.value !in old(profiles.rows)
        && profiles.rows == old(profiles.rows)[r.value :=
             Profile(name, surname, email, md5(password), None, ProfileStatus.INACTIVE, USER, None)]
    {
      var existing := FindByEmail(profiles.rows, email);
      if existing.Some? {
        if profiles.rows[existing.value].status != ProfileStatus.INACTIVE {
          return Err(AlreadyExists("This Email already used!"));
        }
        return Ok(existing.value);
      }
      var entity := Profile(name, surname, email, md5(password), None, ProfileStatus.INACTIVE, USER, None);
      r := profiles.Insert(entity);
    }

    /** verification: sets the profile ACTIVE; it fails when no row was
        updated. */
    method Verification(id: Id) returns (r: Result<string>)
      requires Valid()
      modifies profiles
      ensures Valid()
      ensures id in old(profiles.rows) ==>
        r == Ok("Successfully verified")
        && profiles.rows == old(profiles.rows)[id := old(profiles.rows)[id].(status := ProfileStatus.ACTIVE)]
      ensures id !in old(profiles.rows) ==>
        r == Err(NotAcceptable("Unsuccessfully verified!")) && profiles.rows == old(profiles.rows)
    {
      var count: nat := 0;
      if id in profiles.rows {
        var updated := profiles.Update(id, profiles.rows[id].(status := ProfileStatus.ACTIVE));
        count := updated.value;
      }
      if count > 0 {
        return Ok("Successfully verified");
      }
      return Err(NotAcceptable("Unsuccessfully verified!"));
    }
  }
}
