/** ProfileService: accounts created by an administrator, profile edits, the
    profile image, the two-step email change and the password change. */
module Profiles {
  import opened Common
  import opened Entities
  import opened Tables
  import opened Attachments

  /** The profile table's unique email column. */
  ghost predicate EmailsUnique(rows: map<Id, Profile>) {
    forall a, b :: a in rows && b in rows && a != b ==> !ProfilesClash(rows[a], rows[b])
  }

  /** findByEmail: the profile with that email, if any. */
  function FindByEmail(rows: map<Id, Profile>, email: string): (r: Option<Id>)
    requires EmailsUnique(rows)
    ensures r.Some? ==> r.value in rows && rows[r.value].email == email
    ensures r.None? ==> forall k :: k in rows ==> rows[k].email != email
  {
    if exists k :: k in rows && rows[k].email == email then
      var k :| k in rows && rows[k].email == email;
      Some(k)
    else None
  }

  /** getById: the profile, or "Not Found!". */
  function GetById(rows: map<Id, Profile>, id: Id): (r: Result<Profile>)
    ensures r.Ok? <==> id in rows
    ensures r.Ok? ==> r.value == rows[id]
    ensures r.Err? ==> r.error == NotFound("Not Found!")
  {
    if id in rows then Ok(rows[id]) else Err(NotFound("Not Found!"))
  }

  /** checkEmail: refuses an email some profile already has. */
  function CheckEmail(rows: map<Id, Profile>, email: string): (r: Result<()>)
    ensures r.Ok? <==> forall k :: k in rows ==> rows[k].email != email
    ensures r.Err? ==> r.error == AlreadyExists("This Email already used!")
  {
    if exists k :: k in rows && rows[k].email == email then Err(AlreadyExists("This Email already used!"))
    else Ok(())
  }

  /** emailReset: the profile as the confirmation email addresses it, with
      the new email, after checking that the email is free. Nothing is
      stored: the address changes only when the link comes back to
      emailConfirm. */
  function EmailReset(rows: map<Id, Profile>, profileId: Id, email: string): (r: Result<Profile>)
    ensures r.Ok? <==> profileId in rows && forall k :: k in rows ==> rows[k].email != email
    ensures r.Ok? ==> r.value == rows[profileId].(email := email)
    ensures profileId !in rows ==> r == Err(NotFound("Not Found!"))
    ensures profileId in rows && r.Err? ==> r.error == AlreadyExists("This Email already used!")
  {
    match GetById(rows, profileId)
    case Err(e) => Err(e)
    case Ok(entity) =>
      match CheckEmail(rows, email)
      case Err(e) => Err(e)
      case Ok(_) => Ok(entity.(email := email))
  }

  /** toOpenUrl: the public link of a profile. */
  function OpenUrl(domain: string, id: string): (url: string)
    ensures url == Link(domain, "profile/", id)
  {
    domain + "profile/" + id
  }

  class ProfileService {
    const profiles: Table<Profile>
    const attach: AttachService
    /** DigestUtils.md5Hex. */
    const md5: string -> string

    ghost predicate Valid()
      reads this, profiles, attach, attach.attaches
    {
      && profiles.Valid()
      && (forall a, b :: profiles.clash(a, b) == ProfilesClash(a, b))
      && attach.Valid()
    }

    constructor (profiles: Table<Profile>, attach: AttachService, md5: string -> string)
      requires profiles.Valid() && (forall a, b :: profiles.clash(a, b) == ProfilesClash(a, b))
      requires attach.Valid()
      ensures Valid()
      ensures this.profiles == profiles && this.attach == attach && this.md5 == md5
    {
      this.profiles := profiles;
      this.attach := attach;
      this.md5 := md5;
    }

    /** create: an ACTIVE profile with the given role and the hash of the
        given password, unless the email is taken. */
    method Create(name: string, surname: string, email: string, password: string, role: Role)
      returns (r: Result<Id>)
      requires Valid()
      modifies profiles
      ensures Valid()
      ensures CheckEmail(old(profiles.rows), email).Err? ==>
        r == Err(AlreadyExists("This Email already used!")) && profiles.rows == old(profiles.rows)
      ensures CheckEmail(old(profiles.rows), email).Ok? ==>
        && r.Ok? && r.value !in old(profiles.rows)
        && profiles.rows == old(profiles.rows)[r.value := Profile(name, surname, email, md5(password), None, ProfileStatus.ACTIVE, role, None)]
    {
      var check := CheckEmail(profiles.rows, email);
      if check.Err? {
        return Err(check.error);
      }
      var entity := Profile(name, surname, email, md5(password), None, ProfileStatus.ACTIVE, role, None);
      r := profiles.Insert(entity);
    }

    /** updateBio: new name and surname, stamped with `now`. */
    method UpdateBio(id: Id, name: string, surname: string, now: Instant) returns (r: Result<Profile>)
      requires Valid()
      modifies profiles
      ensures Valid()
      ensures id !in old(profiles.rows) ==> r == Err(NotFound("Not Found!")) && profiles.rows == old(profiles.rows)
      ensures id in old(profiles.rows) ==>
        && profiles.rows == old(profiles.rows)[id := old(profiles.rows)[id].(name := name, surname := surname, updatedDate := Some(now))]
        && r == Ok(profiles.rows[id])
    {
      var entity := GetById(profiles.rows, id);
      if entity.Err? {
        return Err(entity.error);
      }
      var _ := profiles.Update(id, entity.value.(name := name, surname := surname, updatedDate := Some(now)));
      r := GetById(profiles.rows, id);
    }

    /** delete: removes the profile. */
    method Delete(id: Id) returns (r: Result<bool>)
      requires Valid()
      modifies profiles
      ensures Valid()
      ensures r == if id in old(profiles.rows) then Ok(true) else Err(NotFound("Not Found!"))
      ensures profiles.rows == old(profiles.rows) - {id}
    {
      var entity := GetById(profiles.rows, id);
      if entity.Err? {
        return Err(entity.error);
      }
      profiles.Delete(id);
      r := Ok(true);
    }

    /** profileImage: the replace-attachment pattern on the profile's image.
        The chosen attachment must exist; the caller is not checked against
        the profile. */
    method ProfileImage(attachId: Id, profileId: Id) returns (r: Result<bool>)
      requires Valid()
      modifies profiles, attach, attach.attaches
      ensures Valid()
      ensures attachId !in old(attach.attaches.rows) ==>
        r == Err(NotFound("Not found!")) && profiles.rows == old(profiles.rows)
        && attach.attaches.rows == old(attach.attaches.rows) && attach.disk == old(attach.disk)
      ensures attachId in old(attach.attaches.rows) && profileId !in old(profiles.rows) ==>
        r == Err(NotFound("Not Found!")) && profiles.rows == old(profiles.rows)
        && attach.attaches.rows == old(attach.attaches.rows) && attach.disk == old(attach.disk)
      ensures attachId in old(attach.attaches.rows) && profileId in old(profiles.rows) ==>
        var rep := ReplaceAttachment(old(profiles.rows)[profileId].attachId, attachId);
        && profiles.rows == old(profiles.rows)[profileId := old(profiles.rows)[profileId].(attachId := Some(attachId))]
        && StoreAfter(rep, old(attach.attaches.rows), old(attach.disk), attach.attaches.rows, attach.disk)
        && r == ReplaceResult(rep, old(attach.attaches.rows), old(attach.disk))
    {
      var attachEntity := attach.GetById(attachId);
      if attachEntity.Err? {
        return Err(attachEntity.error);
      }
      var entity := GetById(profiles.rows, profileId);
      if entity.Err? {
        return Err(entity.error);
      }
      match ReplaceAttachment(entity.value.attachId, attachId)
      case Keep =>
        assert profiles.rows[profileId := entity.value.(attachId := Some(attachId))] == profiles.rows;
        return Ok(true);
      case Replace(oldAttach) =>
        var _ := profiles.Update(profileId, entity.value.(attachId := Some(attachId)));
        r := attach.Delete(oldAttach);
        if r.Err? {
          return;
        }
        return Ok(true);
      case SetFirst =>
        var _ := profiles.Update(profileId, entity.value.(attachId := Some(attachId)));
        return Ok(true);
    }

    /** emailConfirm: stores the new email; an email another profile took in
        the meantime is refused. */
    method EmailConfirm(profileId: Id, email: string) returns (r: Result<string>)
      requires Valid()
      modifies profiles
      ensures Valid()
      ensures profileId !in old(profiles.rows) ==>
        r == Err(NotFound("Not Found!")) && profiles.rows == old(profiles.rows)
      ensures profileId in old(profiles.rows) && CheckEmail(old(profiles.rows) - {profileId}, email).Err? ==>
        r == Err(NotAcceptable("Unsuccessfully changed!")) && profiles.rows == old(profiles.rows)
      ensures profileId in old(profiles.rows) && CheckEmail(old(profiles.rows) - {profileId}, email).Ok? ==>
        r == Ok("Successfully changed")
        && profiles.rows == old(profiles.rows)[profileId := old(profiles.rows)[profileId].(email := email)]
    {
      var entity := GetById(profiles.rows, profileId);
      if entity.Err? {
        return Err(entity.error);
      }
      var updated := profiles.Update(profileId, entity.value.(email := email));
      if updated.Err? {
        var k :| k in profiles.rows && Some(k) != Some(profileId) &&
          (profiles.clash(profiles.rows[k], entity.value.(email := email)) || profiles.clash(entity.value.(email := email), profiles.rows[k]));
        assert k in old(profiles.rows) - {profileId};
        return Err(NotAcceptable("Unsuccessfully changed!"));
      }
      r := Ok("Successfully changed");
    }

    /** changePassword: the old password must hash to the stored hash; then
        the hash of the new one is stored. */
    method ChangePassword(profileId: Id, oldPassword: string, newPassword: string) returns (r: Result<string>)
      requires Valid()
      modifies profiles
      ensures Valid()
      ensures profileId !in old(profiles.rows) ==>
        r == Err(NotFound("Not Found!")) && profiles.rows == old(profiles.rows)
      ensures profileId in old(profiles.rows) && old(profiles.rows)[profileId].password != md5(oldPassword) ==>
        r == Err(BadRequest("Invalid Old Password")) && profiles.rows == old(profiles.rows)
      ensures profileId in old(profiles.rows) && old(profiles.rows)[profileId].password == md5(oldPassword) ==>
        r == Ok("Successfully changed")
        && profiles.rows == old(profiles.rows)[profileId := old(profiles.rows)[profileId].(password := md5(newPassword))]
    {
      var entity := GetById(profiles.rows, profileId);
      if entity.Err? {
        return Err(entity.error);
      }
      if entity.value.password != md5(oldPassword) {
        return Err(BadRequest("Invalid Old Password"));
      }
      var password := md5(newPassword);
      var updated := profiles.Update(profileId, entity.value.(password := password));
      if updated.Err? {
        return Err(NotAcceptable("Unsuccessfully changed!"));
      }
      r := Ok("Successfully changed");
    }
  }
}
