/** AttachService: the attachment table, the files in the upload folder, and
    the string helpers that name folders, extensions and links. */
module Attachments {
  import opened Common
  import opened Entities
  import opened Tables

  /** `lastIndexOf`: the last position of `c` in `s`, or -1. */
  function LastIndexOf(s: string, c: char): (i: int)
    ensures -1 <= i < |s|
    ensures i >= 0 ==> s[i] == c
    ensures forall j :: i < j < |s| ==> s[j] != c
  {
    if |s| == 0 then -1
    else if s[|s| - 1] == c then |s| - 1
    else LastIndexOf(s[..|s| - 1], c)
  }

  /** getExtension: what follows the last '.' of the file name, or the whole
      name when it has no '.'. */
  function GetExtension(fileName: string): (ext: string)
    ensures |ext| <= |fileName| && ext == fileName[|fileName| - |ext|..]
    ensures '.' !in ext
    ensures '.' in fileName ==> fileName[|fileName| - |ext| - 1] == '.'
    ensures '.' !in fileName ==> ext == fileName
  {
    fileName[LastIndexOf(fileName, '.') + 1..]
  }

  /** A digit character. */
  function DigitChar(d: nat): char
    requires d < 10
  {
    "0123456789"[d]
  }

  /** `Integer.toString` of a non-negative number, most significant digit
      first. */
  function Decimal(n: nat): (s: string)
    ensures |s| > 0
    ensures forall i :: 0 <= i < |s| ==> '0' <= s[i] <= '9'
  {
    if n < 10 then [DigitChar(n)] else Decimal(n / 10) + [DigitChar(n % 10)]
  }

  /** Reads a string of digits back as a number. */
  function DecimalValue(s: string): nat
    requires forall i :: 0 <= i < |s| ==> '0' <= s[i] <= '9'
  {
    if s == [] then 0 else DecimalValue(s[..|s| - 1]) * 10 + (s[|s| - 1] as int - '0' as int)
  }

  lemma {:induction false} DecimalReadsBack(n: nat)
    ensures DecimalValue(Decimal(n)) == n
  {
    var s := Decimal(n);
    if n >= 10 {
      DecimalReadsBack(n / 10);
      assert s[..|s| - 1] == Decimal(n / 10);
    }
  }

  /** getDateFolder: year, month and day of the clock reading, separated by
      '/'. `calendarMonth` is `Calendar.MONTH`, which counts from 0. */
  function DateFolder(year: nat, calendarMonth: nat, day: nat): (folder: string)
    requires calendarMonth < 12
    ensures forall i :: 0 <= i < |folder| ==> folder[i] == '/' || '0' <= folder[i] <= '9'
  {
    Decimal(year) + "/" + Decimal(calendarMonth + 1) + "/" + Decimal(day)
  }

  /** `indexOf`: the first position of `c` in `s`, or -1. */
  function IndexOf(s: string, c: char): (i: int)
    ensures -1 <= i < |s|
    ensures i >= 0 ==> s[i] == c && c !in s[..i]
    ensures i < 0 ==> c !in s
  {
    if |s| == 0 then -1
    else if s[0] == c then 0
    else
      var j := IndexOf(s[1..], c);
      if j < 0 then -1
      else
        assert s[..j + 1] == [s[0]] + s[1..][..j];
        j + 1
  }

  /** Splits `s` at every `sep`. */
  function Split(s: string, sep: char): (parts: seq<string>)
    ensures |parts| > 0
    ensures forall i :: 0 <= i < |parts| ==> sep !in parts[i]
    decreases |s|
  {
    var i := IndexOf(s, sep);
    if i < 0 then [s]
    else
      var first, rest := s[..i], Split(s[i + 1..], sep);
      var parts := [first] + rest;
      assert forall k :: 0 <= k < |parts| ==> sep !in parts[k] by {
        forall k | 0 <= k < |parts| ensures sep !in parts[k] {
          if k > 0 {
            assert parts[k] == rest[k - 1];
          }
        }
      }
      parts
  }

  lemma {:induction false} SplitJoined(a: string, b: string, sep: char)
    requires sep !in a
    ensures Split(a + [sep] + b, sep) == [a] + Split(b, sep)
  {
    var s := a + [sep] + b;
    assert s[|a|] == sep && s[..|a|] == a && s[|a| + 1..] == b;
    assert IndexOf(s, sep) == |a|;
  }

  lemma NoSeparatorInDecimal(n: nat)
    ensures '/' !in Decimal(n)
  {
    var s := Decimal(n);
    assert forall i :: 0 <= i < |s| ==> s[i] != '/';
  }

  /** The folder splits at '/' into the three numbers. */
  lemma {:induction false} DateFolderSplits(year: nat, calendarMonth: nat, day: nat)
    requires calendarMonth < 12
    ensures Split(DateFolder(year, calendarMonth, day), '/') ==
      [Decimal(year), Decimal(calendarMonth + 1), Decimal(day)]
  {
    var y, m, d := Decimal(year), Decimal(calendarMonth + 1), Decimal(day);
    NoSeparatorInDecimal(year);
    NoSeparatorInDecimal(calendarMonth + 1);
    NoSeparatorInDecimal(day);
    assert DateFolder(year, calendarMonth, day) == y + ['/'] + (m + ['/'] + d);
    SplitJoined(y, m + ['/'] + d, '/');
    SplitJoined(m, d, '/');
    assert Split(d, '/') == [d];
  }

  /** The folder names its date unambiguously: its three parts read back as
      the year, the month in 1..12 and the day. */
  lemma DateFolderReadsBack(year: nat, calendarMonth: nat, day: nat)
    requires calendarMonth < 12
    ensures Split(DateFolder(year, calendarMonth, day), '/') ==
      [Decimal(year), Decimal(calendarMonth + 1), Decimal(day)]
    ensures DecimalValue(Decimal(year)) == year
    ensures DecimalValue(Decimal(calendarMonth + 1)) == calendarMonth + 1 <= 12
    ensures DecimalValue(Decimal(day)) == day
  {
    DateFolderSplits(year, calendarMonth, day);
    DecimalReadsBack(year);
    DecimalReadsBack(calendarMonth + 1);
    DecimalReadsBack(day);
  }

  /** `domain + route + id`, the shape of every link the services hand out. */
  function Link(domain: string, route: string, id: string): (url: string)
    ensures |url| == |domain| + |route| + |id|
    ensures url[..|domain|] == domain && url[|domain|..|domain| + |route|] == route
    ensures url[|url| - |id|..] == id
  {
    domain + route + id
  }

  /** Two links on the same domain and route are equal only for the same id. */
  lemma LinkInjective(domain: string, route: string, a: string, b: string)
    requires Link(domain, route, a) == Link(domain, route, b)
    ensures a == b
  {
    var n := |domain| + |route|;
    assert a == Link(domain, route, a)[n..];
  }

  /** toOpenUrl: the link that streams an attachment. */
  function OpenUrl(domain: string, id: string): (url: string)
    ensures url == Link(domain, "attach/open/", id)
  {
    domain + "attach/open/" + id
  }

  /** The `url` that toDTO puts in an attachment's DTO: its download link. */
  function DownloadUrl(domain: string, id: string): (url: string)
    ensures url == Link(domain, "attach/download/", id)
  {
    domain + "attach/download/" + id
  }

  /** The open and the download link of an attachment never coincide. */
  lemma OpenAndDownloadDiffer(domain: string, a: string, b: string)
    ensures OpenUrl(domain, a) != DownloadUrl(domain, b)
  {
    var n := |domain|;
    assert OpenUrl(domain, a)[n + 7] == 'o';
    assert DownloadUrl(domain, b)[n + 7] == 'd';
  }

  class AttachService {
    const attaches: Table<Attach>
    /** The upload folder: the bytes of the file of each attachment that has
        one, by attachment id. */
    var disk: map<Id, seq<bv8>>

    ghost predicate Valid()
      reads this, attaches
    {
      attaches.Valid() && Unconstrained(attaches)
    }

    constructor (attaches: Table<Attach>, disk: map<Id, seq<bv8>>)
      requires attaches.Valid() && Unconstrained(attaches)
      ensures Valid() && this.attaches == attaches && this.disk == disk
    {
      this.attaches := attaches;
      this.disk := disk;
    }

    /** getById: the attachment row, or "Not found!". */
    function GetById(id: Id): (r: Result<Attach>)
      reads attaches
      ensures r.Ok? <==> id in attaches.rows
      ensures r.Ok? ==> r.value == attaches.rows[id]
      ensures r.Err? ==> r.error == NotFound("Not found!")
    {
      if id in attaches.rows then Ok(attaches.rows[id]) else Err(NotFound("Not found!"))
    }

    /** saveAttach: a new row holding the folder, the original name, the
        extension and the size of the upload. */
    method SaveAttach(pathFolder: string, extension: string, originalName: string, fileSize: int)
      returns (id: Id)
      requires Valid()
      modifies attaches
      ensures Valid()
      ensures id !in old(attaches.rows)
      ensures attaches.rows == old(attaches.rows)[id := Attach(pathFolder, extension, originalName, fileSize)]
    {
      var entity := Attach(pathFolder, extension, originalName, fileSize);
      var r := attaches.Insert(entity);
      id := r.value;
    }

    /** delete: removes the file and the row. The row goes even when the
        file cannot be deleted, and then the call fails. */
    method Delete(id: Id) returns (r: Result<bool>)
      requires Valid()
      modifies this, attaches
      ensures Valid()
      ensures r == DeleteResult(old(attaches.rows), old(disk), id)
      ensures attaches.rows == old(attaches.rows) - {id}
      ensures disk == if id in old(attaches.rows) then old(disk) - {id} else old(disk)
    {
      var entity := GetById(id);
      if entity.Err? {
        return Err(entity.error);
      }
      var deleted := id in disk;
      disk := disk - {id};
      if deleted {
        attaches.Delete(id);
        return Ok(true);
      } else {
        attaches.Delete(id);
        return Err(BadRequest("Could not read the file!"));
      }
    }

    /** open: the bytes of the attachment's file, or no bytes when the file
        cannot be read. */
    function Open(id: Id): (r: Result<seq<bv8>>)
      reads this, attaches
      ensures r.Err? <==> id !in attaches.rows
      ensures r.Err? ==> r.error == NotFound("Not found!")
      ensures r.Ok? ==> r.value == if id in disk then disk[id] else []
    {
      match GetById(id)
      case Err(e) => Err(e)
      case Ok(_) => if id in disk then Ok(disk[id]) else Ok([])
    }
  }

  /** What delete answers: "Not found!" for an unknown attachment, failure
      when its file is missing, success otherwise. */
  function DeleteResult(rows: map<Id, Attach>, disk: map<Id, seq<bv8>>, id: Id): (r: Result<bool>)
    ensures r.Ok? <==> id in rows && id in disk
    ensures r.Ok? ==> r.value
    ensures r.Err? ==> r.error == if id in rows then BadRequest("Could not read the file!") else NotFound("Not found!")
  {
    if id !in rows then Err(NotFound("Not found!"))
    else if id in disk then Ok(true)
    else Err(BadRequest("Could not read the file!"))
  }

  /** delete called on each id in turn, as a service does when it removes
      the attachments of an entity it deletes. A missing id (a null) fails
      with a NullPointerException; the first failure ends the run. The result
      holds the outcome and the attachment rows and files left behind. */
  function DeleteInTurn(ids: seq<Option<Id>>, rows: map<Id, Attach>, disk: map<Id, seq<bv8>>)
    : (out: (Result<bool>, map<Id, Attach>, map<Id, seq<bv8>>))
    ensures out.1.Keys <= rows.Keys && out.2.Keys <= disk.Keys
    ensures out.0.Ok? ==> out.0.value
    ensures out.0.Ok? ==> forall i :: 0 <= i < |ids| ==>
      ids[i].Some? && ids[i].value in rows && ids[i].value in disk && ids[i].value !in out.1 && ids[i].value !in out.2
    ensures forall k :: k in rows && (forall i :: 0 <= i < |ids| ==> ids[i] != Some(k)) ==>
      k in out.1 && out.1[k] == rows[k]
    ensures forall k :: k in disk && (forall i :: 0 <= i < |ids| ==> ids[i] != Some(k)) ==>
      k in out.2 && out.2[k] == disk[k]
    decreases |ids|
  {
    if |ids| == 0 then (Ok(true), rows, disk)
    else match ids[0]
      case None => (Err(NullPointer), rows, disk)
      case Some(id) =>
        var outcome := DeleteResult(rows, disk, id);
        var rows' := rows - {id};
        var disk' := if id in rows then disk - {id} else disk;
        if outcome.Err? then (outcome, rows', disk')
        else DeleteInTurn(ids[1..], rows', disk')
  }

  /** What the replace-attachment pattern does with an entity's current
      attachment when a new one is chosen. */
  datatype Replacement =
    | Keep              // the same attachment is already set: nothing changes
    | Replace(previous: Id)  // another one is set: overwrite it, then delete it
    | SetFirst          // none is set yet: set the new one

  function ReplaceAttachment(current: Option<Id>, chosen: Id): (r: Replacement)
    ensures r == Keep <==> current == Some(chosen)
    ensures r == SetFirst <==> current.None?
    ensures r.Replace? <==> current.Some? && current.value != chosen
    ensures r.Replace? ==> r.previous == current.value
  {
    if current.Some? then
      if current.value == chosen then Keep else Replace(current.value)
    else SetFirst
  }

  /** The attachment store after the pattern ran: a replaced attachment is
      deleted, and nothing else changes. */
  ghost predicate StoreAfter(
    rep: Replacement, oldRows: map<Id, Attach>, oldDisk: map<Id, seq<bv8>>,
    rows: map<Id, Attach>, disk: map<Id, seq<bv8>>)
  {
    if rep.Replace? then
      rows == oldRows - {rep.previous} &&
      disk == if rep.previous in oldRows then oldDisk - {rep.previous} else oldDisk
    else rows == oldRows && disk == oldDisk
  }

  /** What the pattern answers: the outcome of deleting the replaced
      attachment, or success when nothing was replaced. */
  function ReplaceResult(rep: Replacement, rows: map<Id, Attach>, disk: map<Id, seq<bv8>>): (r: Result<bool>)
    ensures !rep.Replace? ==> r == Ok(true)
  {
    if rep.Replace? then DeleteResult(rows, disk, rep.previous) else Ok(true)
  }
}
