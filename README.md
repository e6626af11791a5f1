# Video site backend: services, token rules and repository queries

This project models the business core of a Spring backend for a video site.
Profiles own channels; channels hold videos and playlists; videos get likes
and dislikes; playlists order videos; files are stored as attachments. It
also models the JSON Web Token (RFC 7519) rules of `JwtUtil`. The tokens are
signed with HMAC SHA-256 (section 3.2 of RFC 7518).

How the model is built:

- **Tables.** Every database table is a `Tables.Table<T>` object.
  - `rows` maps an abstract `Id` to a record. The source uses Integer, String and UUID ids; one `Id` type stands for all of them.
  - `nextId` is the sequence the next row takes.
  - `clash` is the table's unique constraint. `save` fails with a data integrity violation when a row clashes with another.
- **Services.** Each service is a class over the tables it uses.
  - Its methods change the tables in place. Each method's `ensures` states the new rows and the result, including every error the source throws, in the order the source checks.
  - Lookups and guards that change nothing are functions. Their errors are `Result` values carrying the exception and its message.
- **Outside the model.** The clock, the MD5 hash and the signing library are inputs:
  - `now: Instant` stands for the clock;
  - `md5: string -> string` stands for the hash;
  - `Jwt.Codec` stands for the signing library. `Jwt.Sound` is what the model assumes of it: a signed token parses back under the same key until the clock is after its `exp`, and never under another key. `iat` and `exp` are whole seconds, as the library stores them (`Jwt.EpochSeconds`).
- **Attachment files.** The upload folder is the attachment service's `disk` map. A file is present iff deleting it succeeds.
- **Unique constraints.**
  - These tables are pinned to their declared constraint: profile email, channel name, category name, and the pair (video, playlist) of playlist_video.
  - Video, attachment and like tables declare none.
  - Tag and playlist tables declare none either. Their services still catch a violation, so the model leaves their constraint open and states both outcomes.
- **Missing joined rows.** The many-to-one joins (`entity.getChannel()`, `entity.getPlaylist()`) are lazy: Hibernate hands out a proxy, never null, and reading a proxy whose row is missing throws `EntityNotFoundException`. It is `Common.EntityNotFound`. A null attachment id passed to `delete` is a `NullPointerException`, `Common.NullPointer`.

Two behaviours of the source are modelled as written:

- **`decode` of a role-less token.** It calls `ProfileRole.valueOf("null")`, and the `IllegalArgumentException` escapes the `catch (JwtException e)`. See `Jwt.Decode`, `Jwt.EncodeId` and `Jwt.DecodeAgreesOnId`.
- **`updatePreviewPhoto` of a video without a preview.** It writes the preview onto the row whose id is the video's attachment id. See "## Findings".

## Model

| member | source | states |
|---|---|---|
| Jwt.DoEncode | src/main/java/com/company/util/JwtUtil.java:31-48 | The token is the codec's compact form of: subject = id, issued at `now` and expiring at `now + minute·60·1000`, both in whole seconds, issuer "mazgi production", the role and email claims only when given. Under a sound codec it parses back to exactly those claims up to its expiry instant. |
| Jwt.ExpiryWithinASecond | src/main/java/com/company/util/JwtUtil.java:36 | A token's expiry instant is within one second of `now + minute·60·1000`, and never later for a clock after 1970. |
| Jwt.Encode | src/main/java/com/company/util/JwtUtil.java:19-21 | The login token lasts 60 minutes and carries the role but no email. Up to its expiry instant `decode` reads (id, role, "null"); after it, "JWT invalid!". |
| Jwt.EncodeId | src/main/java/com/company/util/JwtUtil.java:23-25 | The link token lasts 3 minutes and carries neither role nor email. `decodeAndGetId` reads the id up to the expiry instant and "JWT invalid!" after it. `decode` of it fails with IllegalArgumentException. |
| Jwt.EncodeEmail | src/main/java/com/company/util/JwtUtil.java:27-29 | The email-change token lasts 3 minutes and carries role and email. `decode` reads (id, role, email) up to its expiry instant and "JWT invalid!" after it. |
| Jwt.Decode | src/main/java/com/company/util/JwtUtil.java:50-69 | A rejected token gives BadRequest "JWT invalid!". A parsed token without a role gives IllegalArgumentException. Otherwise the identity is the subject, the role and the email, and a missing email reads as "null". |
| Jwt.DecodeAndGetId | src/main/java/com/company/util/JwtUtil.java:71-85 | The token's subject iff it parses, else BadRequest "JWT invalid!". |
| Jwt.DecodeAgreesOnId | src/main/java/com/company/util/JwtUtil.java:50-85 | `decode` and `decodeAndGetId` agree on the id and on every parse error. They differ exactly on a valid token without a role claim, which only `decode` refuses. |
| Jwt.ForeignKeyRefused | src/main/java/com/company/util/JwtUtil.java:50-85 | Under a sound codec, a token signed with any other key is refused by both readers with "JWT invalid!". |
| Jwt.AnyRoleMatchesIff | src/main/java/com/company/util/JwtUtil.java:94-98 | The loop over the required roles finds a match iff the identity has a role and it is one of them. |
| Jwt.GetIdFromHeader | src/main/java/com/company/util/JwtUtil.java:88-105 | A missing or foreign attribute gives "Not Authorized!". With no required role, the identity's id is returned. Otherwise the id is returned iff the identity's role is among the required roles, else Forbidden "Not Access!". |
| Jwt.LoginAndLinkScenarios | src/main/java/com/company/util/JwtUtil.java:19-105 | Concrete scenarios, proved for fixed inputs. An ADMIN login token passes an ADMIN gate and is refused by a USER gate. A link token reads back at once and is refused a second after three minutes. |
| Attachments.GetExtension | src/main/java/com/company/service/AttachService.java:171-174 | The extension is the suffix after the last '.' and holds no '.'. A name without '.' is returned whole. |
| Attachments.DateFolder | src/main/java/com/company/service/AttachService.java:176-182 | The folder holds only digits and '/'. |
| Attachments.DateFolderReadsBack | src/main/java/com/company/service/AttachService.java:176-182 | Split at '/', the folder gives back year, calendar month + 1 (in 1..12) and day. |
| Attachments.LinkInjective | src/main/java/com/company/service/AttachService.java:167-169 | Two links built from the same domain and route are equal only for equal ids. |
| Attachments.OpenUrl | src/main/java/com/company/service/AttachService.java:167-169 | The open link is domain + "attach/open/" + id. |
| Attachments.DownloadUrl | src/main/java/com/company/service/AttachService.java:153 | The url `toDTO` gives is domain + "attach/download/" + id. |
| Attachments.OpenAndDownloadDiffer | src/main/java/com/company/service/AttachService.java:153-169 | An open link never equals a download link. |
| Attachments.AttachService.GetById | src/main/java/com/company/service/AttachService.java:141-146 | Gives the row iff it exists, else "Not found!". |
| Attachments.AttachService.SaveAttach | src/main/java/com/company/service/AttachService.java:158-165 | Exactly one new row, holding the folder, original name, extension and size given. |
| Attachments.AttachService.Delete | src/main/java/com/company/service/AttachService.java:125-139 | Removes the row even when the file is missing; the answer is then "Could not read the file!". An unknown id gives "Not found!" and changes nothing. |
| Attachments.DeleteResult | src/main/java/com/company/service/AttachService.java:125-139 | Success iff the row and its file both exist. Otherwise the error tells the two failures apart. |
| Attachments.AttachService.Open | src/main/java/com/company/service/AttachService.java:86-100 | An unknown id gives "Not found!". A known one gives the file's bytes, or no bytes when there is no file. |
| Attachments.DeleteInTurn | src/main/java/com/company/service/ChannelService.java:172-173 | Deleting several attachments in turn stops at the first failure; a null id is a NullPointerException. On success every id was a row with a file, and all are gone. Rows not named are kept as they were. |
| Attachments.ReplaceAttachment | src/main/java/com/company/service/ChannelService.java:85-95 | The replace pattern: the same id is Keep; another current id is Replace of that id; no current id is SetFirst. |
| Attachments.ReplaceResult | src/main/java/com/company/service/ChannelService.java:85-95 | When nothing is replaced the answer is success. Otherwise it is the outcome of deleting the old attachment. |
| Profiles.FindByEmail | src/main/java/com/company/repository/ProfileRepository.java:16 | With unique emails: the profile holding the email, or none when no profile holds it. |
| Profiles.GetById | src/main/java/com/company/service/ProfileService.java:143-149 | Gives the profile iff it exists, else "Not Found!". |
| Profiles.CheckEmail | src/main/java/com/company/service/ProfileService.java:151-157 | Passes iff no profile has the email, else "This Email already used!". |
| Profiles.EmailReset | src/main/java/com/company/service/ProfileService.java:99-110 | Gives the profile with the new email iff the profile exists and the email is free. The errors come in the source's order. Nothing is stored. |
| Profiles.OpenUrl | src/main/java/com/company/service/ProfileService.java:196-198 | The link is domain + "profile/" + id. |
| Profiles.ProfileService.Create | src/main/java/com/company/service/ProfileService.java:39-54 | A taken email is refused and nothing changes. Otherwise one new ACTIVE row with the given role and the hash of the password. |
| Profiles.ProfileService.UpdateBio | src/main/java/com/company/service/ProfileService.java:67-73 | Changes only name, surname and updated date, and returns the stored row. A missing profile gives "Not Found!". |
| Profiles.ProfileService.Delete | src/main/java/com/company/service/ProfileService.java:75-79 | Removes exactly that row, or gives "Not Found!". |
| Profiles.ProfileService.ProfileImage | src/main/java/com/company/service/ProfileService.java:81-97 | Checks the attachment, then the profile. Then the replace pattern: the profile's image becomes the chosen one, and a replaced image is deleted. |
| Profiles.ProfileService.EmailConfirm | src/main/java/com/company/service/ProfileService.java:112-121 | Stores the new email unless another profile holds it; that violation gives "Unsuccessfully changed!" and changes nothing. |
| Profiles.ProfileService.ChangePassword | src/main/java/com/company/service/ProfileService.java:123-141 | A wrong old password gives "Invalid Old Password" and changes nothing. A right one stores the hash of the new password and nothing else. |
| Auth.GetByEmail | src/main/java/com/company/service/AuthService.java:138-145 | The profile with the email, or "Not found!" exactly when none has it. |
| Auth.Authorization | src/main/java/com/company/service/AuthService.java:57-76 | Success iff the email's profile is ACTIVE and its stored hash matches. Otherwise, in order: "Not found!", blocked, "No Access!" for any other non-ACTIVE status, then "Invalid Password!". |
| Auth.RegisterVerifyLogin | src/main/java/com/company/service/AuthService.java:78-121 | Right after registration, login is refused with "No Access!". After verification the same credentials log in as the new profile. |
| Auth.AuthService.Login | src/main/java/com/company/service/AuthService.java:38-55 | Fails exactly as authorization fails. Otherwise it returns the profile's name, surname, email and a 60-minute token for its id and role, which decodes back to them. |
| Auth.AuthService.Registration | src/main/java/com/company/service/AuthService.java:78-114 | A known non-INACTIVE email is refused. A known INACTIVE one is reused with no store change. A new one adds exactly one INACTIVE USER row with the password's hash. |
| Auth.AuthService.Verification | src/main/java/com/company/service/AuthService.java:116-122 | Succeeds iff the profile row exists, and then sets it ACTIVE. Otherwise it gives "Unsuccessfully verified!". |
| Channels.GetById | src/main/java/com/company/service/ChannelService.java:183-189 | Gives the channel iff it exists, else "Not found!". |
| Channels.OpenUrl | src/main/java/com/company/service/ChannelService.java:213-215 | The link is domain + "channel/" + id. |
| Channels.ToggleStatus | src/main/java/com/company/service/ChannelService.java:139-142 | The new status always differs from the old one. |
| Channels.ToggleTwice | src/main/java/com/company/service/ChannelService.java:139-142 | Two status changes restore the status. |
| Channels.ChannelService.Create | src/main/java/com/company/service/ChannelService.java:40-54 | A taken name gives "Unique!" and changes nothing. Otherwise one new ACTIVE row owned by the caller. |
| Channels.ChannelService.UpdateAbout | src/main/java/com/company/service/ChannelService.java:56-73 | "Not found!", then Forbidden for a non-owner, then "Unique!" for a name another channel holds. Otherwise only name, description and updated date change. |
| Channels.ChannelService.ChannelImage | src/main/java/com/company/service/ChannelService.java:75-96 | Checks the attachment, the channel, then the owner. The photo becomes the chosen one; a replaced photo is deleted; the same photo changes nothing. |
| Channels.ChannelService.ChannelBanner | src/main/java/com/company/service/ChannelService.java:99-120 | The same pattern on the banner. |
| Channels.ChannelService.ChangeStatus | src/main/java/com/company/service/ChannelService.java:133-148 | For the owner or an ADMIN it toggles ACTIVE and BLOCK and changes nothing else. Anyone else gets Forbidden. |
| Channels.ChannelService.Delete | src/main/java/com/company/service/ChannelService.java:162-176 | Owner only. Removes the row, then deletes the banner and the photo in turn. A channel without one of them fails with a NullPointerException after the row is gone. |
| Categories.GetById | src/main/java/com/company/service/CategoryService.java:78-84 | Gives the category iff it exists, else "Not Found!". |
| Categories.OpenUrl | src/main/java/com/company/service/CategoryService.java:95-97 | The link is domain + "category/" + id. |
| Categories.ByNameIsTotalPreorder | src/main/java/com/company/service/CategoryService.java:47-49 | For any collation of names that is total and transitive, the ascending order of categories by name is too, so sorting by it is well defined. |
| Query.LexLeqIsTotalPreorder | src/main/java/com/company/service/CategoryService.java:47-49 | Character-code order of strings (the "C" collation) is total and transitive, so it is one collation `List` accepts. |
| Categories.CategoryService.Create | src/main/java/com/company/service/CategoryService.java:32-43 | A taken name gives "Unique!" and changes nothing. Otherwise one new row. |
| Categories.CategoryService.List | src/main/java/com/company/service/CategoryService.java:45-51 | Every category exactly once, in ascending name order under the database's collation, which is a parameter. |
| Categories.CategoryService.Update | src/main/java/com/company/service/CategoryService.java:53-65 | "Not Found!", then "Unique!" for a name another category holds. Otherwise only name and updated date change. |
| Categories.CategoryService.Delete | src/main/java/com/company/service/CategoryService.java:67-71 | Removes exactly that row, or gives "Not Found!". |
| Tags.TagName | src/main/java/com/company/service/TagService.java:29 | The stored name is '#' followed by the given name. |
| Tags.TagNameInjective | src/main/java/com/company/service/TagService.java:27-38 | Different names give different stored names, so the prefix does not merge tags. |
| Tags.Get | src/main/java/com/company/service/TagService.java:72-78 | Gives the tag iff it exists, else "Not Found!". |
| Tags.TagService.Create | src/main/java/com/company/service/TagService.java:27-38 | Stores '#' + name in a new row, unless the table refuses it; then "Unique Items!" and nothing changes. |
| Tags.TagService.Update | src/main/java/com/company/service/TagService.java:51-64 | "Not Found!". Otherwise it stores '#' + name and the updated date, or gives "Unique Items!" and changes nothing. |
| Tags.TagService.Delete | src/main/java/com/company/service/TagService.java:66-70 | Removes exactly the fetched tag, or gives "Not Found!". |
| VideoRepository.WithStatus | src/main/java/com/company/repository/VideoRepository.java:21-24 | Only the status of that row changes. |
| VideoRepository.WithStatusAndPublishedDate | src/main/java/com/company/repository/VideoRepository.java:26-31 | Only status and published date of that row change. |
| VideoRepository.WithViewCounted | src/main/java/com/company/repository/VideoRepository.java:42-45 | That row's view count grows by exactly one and nothing else changes. |
| VideoRepository.Hidden | src/main/java/com/company/repository/VideoRepository.java:49-52 | That row becomes invisible and nothing else changes. |
| VideoRepository.HiddenIdempotent | src/main/java/com/company/repository/VideoRepository.java:49-52 | Hiding twice is hiding once. |
| VideoRepository.WithPreview | src/main/java/com/company/repository/VideoRepository.java:54-57 | Only the preview of the row with that id changes. |
| VideoRepository.FindByIdAndVisible | src/main/java/com/company/repository/VideoRepository.java:40 | Gives the row iff it exists with that visibility. |
| VideoRepository.FindByIdAndStatusAndVisible | src/main/java/com/company/repository/VideoRepository.java:47 | Gives the row iff it exists with that status and visibility. |
| VideoRepository.HiddenIsNotFound | src/main/java/com/company/repository/VideoRepository.java:40-52 | After hiding, neither finder returns the row for `visible = true`. |
| VideoRepository.FindAllByTitleAndStatusAndVisible | src/main/java/com/company/repository/VideoRepository.java:33 | Exactly the rows with that exact title, status and visibility, each once, in the order requested. |
| VideoRepository.UpdateStatus | src/main/java/com/company/repository/VideoRepository.java:21-24 | The table becomes `WithStatus` of the old rows. |
| VideoRepository.UpdateStatusAndPublishedDate | src/main/java/com/company/repository/VideoRepository.java:26-31 | The table becomes `WithStatusAndPublishedDate` of the old rows. |
| VideoRepository.UpdateViewCount | src/main/java/com/company/repository/VideoRepository.java:42-45 | The table becomes `WithViewCounted` of the old rows. |
| VideoRepository.UpdateVisible | src/main/java/com/company/repository/VideoRepository.java:49-52 | The table becomes `Hidden` of the old rows. |
| VideoRepository.UpdatePreviewPhoto | src/main/java/com/company/repository/VideoRepository.java:54-57 | The table becomes `WithPreview` of the old rows, for the id passed. |
| Videos.GetById | src/main/java/com/company/service/VideoService.java:257-263 | Gives the video iff it exists and is visible, else "Not found!". |
| Videos.GetByIdAndStatus | src/main/java/com/company/service/VideoService.java:265-271 | Gives the video iff it exists, is visible and has that status, else "Not found!". |
| Videos.OpenUrl | src/main/java/com/company/service/VideoService.java:371-373 | The link is domain + "video/public/" + id. |
| Videos.DeletedIsNotFound | src/main/java/com/company/service/VideoService.java:219-271 | Once hidden, a video is "Not found!" for both lookups. |
| Videos.OwnerOf | src/main/java/com/company/service/VideoService.java:74 | The owner of the video's channel, or an EntityNotFoundException when the channel row is missing. |
| Videos.OwnedVideo | src/main/java/com/company/service/VideoService.java:71-77 | Passes iff the video is visible and the caller owns its channel. Otherwise "Not found!", EntityNotFoundException for a missing channel row, or Forbidden, in that order. |
| Videos.CreateCheck | src/main/java/com/company/service/VideoService.java:43-53 | Passes iff the channel exists and is the caller's, and the category and the video file exist. The errors come in the source's order. |
| Videos.Transition | src/main/java/com/company/service/VideoService.java:96-100 | Never leads to CREATED. The result is PUBLIC iff the video was not PUBLIC. The published date is set only on leaving CREATED. Nothing else changes. |
| Videos.TransitionTwice | src/main/java/com/company/service/VideoService.java:96-100 | Once published, two changes restore the video; the published date is kept from the first change. |
| Videos.Get | src/main/java/com/company/service/VideoService.java:238-255 | After the video and profile lookups, the video is shown iff the caller owns it, is ADMIN, or the video is PUBLIC; otherwise Forbidden. |
| Videos.PreviewAsWritten | src/main/java/com/company/service/VideoService.java:129-139 | The rows as the code leaves them; no row is added or removed. |
| Videos.FirstPreviewMissesTheVideo | src/main/java/com/company/service/VideoService.java:138 | A video with no preview still has none afterwards; the row keyed by its attachment id gets the preview. |
| Videos.PreviewIntended | src/main/java/com/company/service/VideoService.java:129-139 | The video's preview becomes the chosen one, and nothing else changes. |
| Videos.PreviewAgreesOnceSet | src/main/java/com/company/service/VideoService.java:129-137 | When the video already has a preview, the code as written and the intended update agree. |
| Videos.VideoService.Create | src/main/java/com/company/service/VideoService.java:43-69 | Fails as `CreateCheck` fails, changing nothing. Otherwise one new visible CREATED video in the caller's channel. |
| Videos.VideoService.UpdateAbout | src/main/java/com/company/service/VideoService.java:71-86 | Owner only: changes only title, description and updated date. |
| Videos.VideoService.ChangeStatus | src/main/java/com/company/service/VideoService.java:88-105 | For the owner or an ADMIN the video becomes its `Transition`. Anyone else gets Forbidden and nothing changes. |
| Videos.VideoService.UpdatePreviewPhoto | src/main/java/com/company/service/VideoService.java:119-140 | Checks the photo, the video, then the owner. The rows become `PreviewAsWritten`, and a replaced preview is deleted. |
| Videos.VideoService.UpdatePreviewPhotoIntended | src/main/java/com/company/service/VideoService.java:119-140 | The same checks; the rows become `PreviewIntended`. |
| Videos.VideoService.UpdateViewCount | src/main/java/com/company/service/VideoService.java:142-145 | Fails with "Not found!" unless the video is PUBLIC and visible. Then its count grows by exactly one. |
| Videos.VideoService.Delete | src/main/java/com/company/service/VideoService.java:219-236 | Owner only. Hides the video, then deletes its file and its preview, if any, in turn. |
| Playlists.GetById | src/main/java/com/company/service/PlaylistService.java:210-216 | Gives the playlist iff it exists, else "Not found!". |
| Playlists.OwnerOf | src/main/java/com/company/service/PlaylistService.java:66 | The owner of the playlist's channel, or an EntityNotFoundException when the channel row is missing. |
| Playlists.OwnedPlaylist | src/main/java/com/company/service/PlaylistService.java:63-69 | Passes iff the caller owns the playlist's channel. Otherwise "Not found!", EntityNotFoundException for a missing channel row, or Forbidden, in that order. |
| Playlists.ToggleStatus | src/main/java/com/company/service/PlaylistService.java:148-155 | The new status always differs from the old one. |
| Playlists.ToggleTwice | src/main/java/com/company/service/PlaylistService.java:148-155 | Two status changes restore the status. |
| Playlists.PlaylistService.Create | src/main/java/com/company/service/PlaylistService.java:39-61 | Channel "Not found!", then Forbidden for a non-owner. Otherwise one new PUBLIC playlist with the given order number, unless the table refuses it with "Unique!". |
| Playlists.PlaylistService.UpdateAbout | src/main/java/com/company/service/PlaylistService.java:63-81 | Owner only. Changes only name, description, order number and updated date, unless refused with "Unique!". |
| Playlists.PlaylistService.ChangeStatus | src/main/java/com/company/service/PlaylistService.java:140-161 | For the owner or an ADMIN it toggles PUBLIC and PRIVATE and changes nothing else. Anyone else gets Forbidden. |
| Playlists.PlaylistService.ChannelPlaylist | src/main/java/com/company/service/PlaylistService.java:163-176 | "Not found!" for an unknown channel. Otherwise exactly its PUBLIC playlists, each once, by descending order number. |
| Playlists.PlaylistService.Delete | src/main/java/com/company/service/PlaylistService.java:192-203 | Owner only: removes exactly that playlist. |
| PlaylistVideoRepository.FindByPlaylistIdAndVideoId | src/main/java/com/company/repository/PlaylistVideoRepository.java:15 | The row matching both ids, or none when no row matches. |
| PlaylistVideoRepository.GetVideoCountByPlaylistId | src/main/java/com/company/repository/PlaylistVideoRepository.java:21-22 | The number of the playlist's rows: zero iff no row belongs to it, and never more than the table holds. |
| PlaylistVideoRepository.FindAllByPlaylistId | src/main/java/com/company/repository/PlaylistVideoRepository.java:17 | Exactly the playlist's rows, each once, in the order requested; as many as the playlist count. |
| PlaylistVideoRepository.GetTop2VideoByPlaylistId | src/main/java/com/company/repository/PlaylistVideoRepository.java:24-26 | Two of the playlist's rows (fewer for a shorter playlist), ascending by order number. No row left out comes before a row listed. |
| PlaylistVideos.GetById | src/main/java/com/company/service/PlaylistVideoService.java:122-129 | Gives the row iff it exists, else "Not found!". |
| PlaylistVideos.GetByPlaylistIdAndVideoId | src/main/java/com/company/service/PlaylistVideoService.java:104-111 | The row for the pair iff there is one, else a BadRequest "Not found!". |
| PlaylistVideos.PlaylistCheck | src/main/java/com/company/service/PlaylistVideoService.java:32-40 | Passes iff the video is visible and the caller owns the playlist's channel. The errors come in the source's order. |
| PlaylistVideos.OwnerOf | src/main/java/com/company/service/PlaylistVideoService.java:57 | The owner through playlist and channel, or an EntityNotFoundException when either row is missing. |
| PlaylistVideos.CountAfterInsert | src/main/java/com/company/repository/PlaylistVideoRepository.java:21-22 | Adding a row to a playlist raises its count by one. |
| PlaylistVideos.CountAfterDelete | src/main/java/com/company/repository/PlaylistVideoRepository.java:21-22 | Removing a row lowers its playlist's count by one. |
| PlaylistVideos.PlaylistVideoService.Create | src/main/java/com/company/service/PlaylistVideoService.java:32-52 | Fails as `PlaylistCheck` fails. A pair already listed violates the unique constraint. Otherwise one new row (playlist, video, order number). |
| PlaylistVideos.PlaylistVideoService.Update | src/main/java/com/company/service/PlaylistVideoService.java:54-68 | Owner only: changes only order number and updated date. |
| PlaylistVideos.PlaylistVideoService.Delete | src/main/java/com/company/service/PlaylistVideoService.java:70-84 | Fails as `PlaylistCheck` fails. An absent pair gives BadRequest "Not found!". Otherwise exactly the pair's row is removed. |
| PlaylistVideos.PlaylistVideoService.VideosByPlaylistId | src/main/java/com/company/service/PlaylistVideoService.java:86-98 | "Not found!" for an unknown playlist. Otherwise exactly its rows, each once, by ascending order number. |
| VideoLikeRepository.FindByVideoIdAndProfileId | src/main/java/com/company/repository/VideoLikeRepository.java:20 | The like matching both ids, or none when no row matches. |
| VideoLikeRepository.GetLikeCountByVideoId | src/main/java/com/company/repository/VideoLikeRepository.java:22-26 | Counts the video's LIKE rows and its other rows. Both sums are NULL when the video has no rows. |
| VideoLikeRepository.CountsAddUp | src/main/java/com/company/repository/VideoLikeRepository.java:22-25 | Likes plus dislikes equal the video's rows. |
| VideoLikeRepository.CountsOnlyOwnRows | src/main/java/com/company/repository/VideoLikeRepository.java:25 | Rows of other videos do not change a video's counts. |
| VideoLikeRepository.GetProfileLikesByVideoId | src/main/java/com/company/repository/VideoLikeRepository.java:28-32 | Exactly the distinct (type, profile) pairs of the video's rows. |
| VideoLikeRepository.ProfileLikesOnePerRow | src/main/java/com/company/repository/VideoLikeRepository.java:28-32 | With one like per (video, profile), there is one entry per row of the video. |
| VideoLikes.GetById | src/main/java/com/company/service/VideoLikeService.java:95-101 | Gives the like iff it exists, else "Not found!". |
| VideoLikes.ReactionCheck | src/main/java/com/company/service/VideoLikeService.java:31-34 | Passes iff the profile exists and the video is visible: profile "Not Found!" first, then video "Not found!". |
| VideoLikes.Get | src/main/java/com/company/service/VideoLikeService.java:80-92 | Fails as `ReactionCheck` fails. Otherwise it gives the profile's like of the video, or the empty answer exactly when there is none. |
| VideoLikes.VideoLikeService.Create | src/main/java/com/company/service/VideoLikeService.java:31-53 | An existing like of the pair takes the new type, adding no row. Otherwise one new row records it. At most one like per (video, profile) is kept. |
| VideoLikes.VideoLikeService.Delete | src/main/java/com/company/service/VideoLikeService.java:55-65 | "Not found!", then Forbidden unless the caller left the like. Otherwise exactly that row is removed. |
| VideoLikes.ReactionRowCount | src/main/java/com/company/service/VideoLikeService.java:36-50 | A new like adds one row to the video's rows; an overwritten one leaves their number unchanged. |

## Left out

- Controllers, `SecuredFilterConfig` and the servlet filter that sets the `profileJwtDTO` attribute: HTTP wiring. The gate itself is `Jwt.GetIdFromHeader`.
- HS256 signing and parsing, MD5: foreign library calls, passed in as `Jwt.Codec` and `md5`.
- Wall-clock reads: passed in as `now`; `Calendar` is the date triple `DateFolder` takes.
- File I/O:
  - `upload`, `download` and `list` of attachments, and reading and writing bytes, are not modelled.
  - The upload folder is the `disk` map, and deleting a file succeeds iff it is in the map.
- VideoLikes.VideoLikeService.Create: service calls are modelled one at a time. `OnePerPair` relies on that: the source checks with `findByVideoIdAndProfileId` and then saves, outside any transaction and with no unique constraint on the table, so two concurrent first reactions of a profile to a video can both insert, after which the finder throws `IncorrectResultSizeDataAccessException`.
- Email sending and the `Thread`s in `registration` and `emailReset`: concurrency and an email service that is not part of this model.
- DTO mapping (`toDTO`, `toFullDTO`, `toShortDTO`, `toShortPlaylistDTO`), pagination (`list`, `pagination*`, `getByProfileLikedVideo`), `profileChannelList`, `profilePlaylist`, `searchResult`, and the projection queries of the playlist repository: they shape answers and add no rule.
- Auth.AuthService.Registration: returns the profile id the verification link is for, in place of the constant "Confirm your email address" message.
- Auth.AuthService.Login: the profile image url of the answer is left out.
- Profiles.ProfileService.ProfileImage: reads the image through the stored `attachId` rather than the lazy `getAttach()` join.
- Playlists.PlaylistService.ChangeStatus: a refusal of the update by a table constraint is left as a raw integrity violation, as nothing in the source catches it.
- Integer widths: ids and counts are unbounded. The `int` view count does not wrap, and `Integer.valueOf` of a non-numeric subject is not modelled (`Id` is abstract).
- Parsing of UUID strings (`UUID.fromString`): ids are already of type `Id`.
- Foreign keys: deleting a row that others reference is not refused by the model.
- Profiles.EmailReset: returns the profile with the new email, the one the confirmation email is sent for, in place of the constant "Confirm your email address.\nCheck your email!" message.
- Profiles.ProfileService.UpdateBio: the persistence context (Hibernate's first-level cache) is not modelled. The model answers with the row as stored after the bulk update. Under open-in-view the cached row read by `getById` may be answered instead, with the old name and surname.
- Query.OrderBy: stands for the database's `Sort`. Rows with equal sort keys may come in any order, which is also all the database promises.

## Findings

| source | as written | input that shows it | evidently intended | confidence | as-written member | corrected member |
|---|---|---|---|---|---|---|
| src/main/java/com/company/service/VideoService.java:138 | For a video with no preview yet, the new preview is written to the row whose id is the video's attachment id (`entity.getAttachId()`), not to the video. | A video 5 with attachment id 9 and no preview: afterwards video 5 still has no preview, and video 9, if it exists, gets the new preview. | The preview of the video itself is set (`entity.getId()`), as in the replace branch two lines above. | not executed | Videos.FirstPreviewMissesTheVideo | Videos.PreviewIntended |
