/** Uploaded files as multer hands them to the handlers, and multer's
    acceptance of a multipart form: for each file, in the order the form sends
    them, the field must be one the route lists with room left ("Unexpected
    field" otherwise), then the route's `fileFilter` must accept it, then it
    must stay within the size limit; the first failure aborts the request. */
module Uploads {
  import opened Wrappers
  import opened Base64

  datatype Upload = Upload(fieldname: string, originalname: string, mimetype: string, bytes: seq<byte>)

  const UnexpectedFieldMessage := "Unexpected field"
  const FileTooLargeMessage := "File too large"

  /** How many of the files were sent under the field `name`. */
  function Count(files: seq<Upload>, name: string): (n: nat)
    ensures n <= |files|
  {
    if files == [] then 0 else (if files[0].fieldname == name then 1 else 0) + Count(files[1..], name)
  }

  /** The form's files pass multer: `room` is how many more files each listed
      field may take, `filter` the route's `fileFilter` (`Some(message)` refuses). */
  function Receive(files: seq<Upload>, room: map<string, nat>, filter: Upload -> Option<string>,
                   maxBytes: Option<nat>): (r: Result<(), string>)
    ensures r.Ok? ==>
              forall i :: 0 <= i < |files| ==>
                files[i].fieldname in room && filter(files[i]).None?
                && (maxBytes.Some? ==> |files[i].bytes| <= maxBytes.value)
    ensures r.Ok? ==> forall name :: name in room ==> Count(files, name) <= room[name]
    ensures r.Err? ==>
              r.error == UnexpectedFieldMessage || (maxBytes.Some? && r.error == FileTooLargeMessage)
              || exists i :: 0 <= i < |files| && files[i].fieldname in room && filter(files[i]) == Some(r.error)
    decreases |files|
  {
    if files == [] then Ok(())
    else
      var f := files[0];
      if f.fieldname !in room || room[f.fieldname] == 0 then Err(UnexpectedFieldMessage)
      else if filter(f).Some? then Err(filter(f).value)
      else if maxBytes.Some? && |f.bytes| > maxBytes.value then Err(FileTooLargeMessage)
      else
        var rest := Receive(files[1..], room[f.fieldname := room[f.fieldname] - 1], filter, maxBytes);
        assert rest.Err? ==> rest.error == UnexpectedFieldMessage || (maxBytes.Some? && rest.error == FileTooLargeMessage)
                             || exists i :: 1 <= i < |files| && files[i].fieldname in room && filter(files[i]) == Some(rest.error) by {
          if rest.Err? && rest.error != UnexpectedFieldMessage && !(maxBytes.Some? && rest.error == FileTooLargeMessage) {
            var j :| 0 <= j < |files[1..]| && files[1..][j].fieldname in room[f.fieldname := room[f.fieldname] - 1]
                     && filter(files[1..][j]) == Some(rest.error);
            assert files[j + 1] == files[1..][j];
          }
        }
        assert rest.Ok? ==> forall i :: 1 <= i < |files| ==> files[i] == files[1..][i - 1];
        rest
  }

  /** `req.files[name][0]` (or `req.file` for a single field): the first file
      sent under that field. */
  function FirstOf(files: seq<Upload>, name: string): (r: Option<Upload>)
    ensures r.Some? <==> Count(files, name) > 0
    ensures r.Some? ==> r.value in files && r.value.fieldname == name
  {
    if files == [] then None
    else if files[0].fieldname == name then Some(files[0])
    else FirstOf(files[1..], name)
  }
}
