/** The evidence-submission form (submit-evidence-form.jsx): the file-selection
    validator, removal of a selected file, the submit guard and the file-size label. */
module EvidenceForm {
  import C = Common
  import Text

  const MaxFiles: nat := 2
  /** The per-file limit the validator enforces: 250 KiB. */
  const MaxFileSize: nat := 250 * 1024
  const AllowedTypes: seq<string> := ["image/png", "image/jpeg", "image/jpg"]

  datatype File = File(name: string, size: nat, mimeType: string)

  /** Why a selection was refused; the second and third carry the offending files' names. */
  datatype Rejection = TooManyFiles | Oversized(names: seq<string>) | InvalidType(names: seq<string>)

  /** What `handleSubmit` passes to `onSubmit`. */
  datatype Evidence = Evidence(description: string, files: seq<File>)

  predicate TooLarge(f: File)
  {
    f.size > MaxFileSize
  }

  predicate WrongType(f: File)
  {
    f.mimeType !in AllowedTypes
  }

  function Names(files: seq<File>): (r: seq<string>)
    ensures |r| == |files|
  {
    seq(|files|, i requires 0 <= i < |files| => files[i].name)
  }

  /** The checks of `handleFileChange`, in their order: the count, then the size of
      every file, then the type of every file. `None` means the selection is accepted. */
  function CheckSelection(current: nat, selected: seq<File>): (r: C.Option<Rejection>)
    ensures r.None? <==> current + |selected| <= MaxFiles
                         && forall i :: 0 <= i < |selected| ==> !TooLarge(selected[i]) && !WrongType(selected[i])
    ensures r == C.Some(TooManyFiles) <==> current + |selected| > MaxFiles
    ensures r.Some? && r.value.Oversized? ==>
              current + |selected| <= MaxFiles
              && r.value.names == Names(C.Filter(selected, TooLarge)) && r.value.names != []
    ensures r.Some? && r.value.InvalidType? ==>
              current + |selected| <= MaxFiles
              && (forall i :: 0 <= i < |selected| ==> !TooLarge(selected[i]))
              && r.value.names == Names(C.Filter(selected, WrongType)) && r.value.names != []
  {
    if current + |selected| > MaxFiles then C.Some(TooManyFiles)
    else
      var oversized := C.Filter(selected, TooLarge);
      if |oversized| > 0 then
        var i :| 0 <= i < |selected| && selected[i] == oversized[0];
        assert TooLarge(selected[i]);
        C.Some(Oversized(Names(oversized)))
      else
        var invalid := C.Filter(selected, WrongType);
        if |invalid| > 0 then
          var i :| 0 <= i < |selected| && selected[i] == invalid[0];
          assert WrongType(selected[i]);
          C.Some(InvalidType(Names(invalid)))
        else C.None
  }

  /** The unit `formatFileSize` picks, with the number it shows: whole bytes, or the
      size in KB or MB rounded to one decimal place (`tenths` of the unit). */
  datatype SizeLabel = InBytes(count: nat) | InKilobytes(tenths: nat) | InMegabytes(tenths: nat)

  /** `(bytes / unit).toFixed(1)` as a count of tenths: the quotient is exact in binary,
      and a tie goes to the larger neighbour. */
  function RoundTenths(bytes: nat, unit: nat): nat
    requires unit > 0
  {
    (10 * bytes + unit / 2) / unit
  }

  function FormatFileSize(bytes: nat): (r: SizeLabel)
    ensures r.InBytes? <==> bytes < 1024
    ensures r.InKilobytes? <==> 1024 <= bytes < 1048576
    ensures r.InMegabytes? <==> 1048576 <= bytes
    ensures r.InBytes? ==> r.count == bytes
    ensures r.InKilobytes? ==> r.tenths * 1024 <= 10 * bytes + 512 < r.tenths * 1024 + 1024
    ensures r.InMegabytes? ==> r.tenths * 1048576 <= 10 * bytes + 524288 < r.tenths * 1048576 + 1048576
  {
    if bytes < 1024 then InBytes(bytes)
    else if bytes < 1048576 then InKilobytes(RoundTenths(bytes, 1024))
    else InMegabytes(RoundTenths(bytes, 1048576))
  }

  /** The label as it is displayed, e.g. "512 B", "1.5 KB", "2.0 MB". */
  function SizeText(shown: SizeLabel): string
  {
    match shown
    case InBytes(n) => Text.DecimalString(n) + " B"
    case InKilobytes(t) => Text.DecimalString(t / 10) + "." + Text.DecimalString(t % 10) + " KB"
    case InMegabytes(t) => Text.DecimalString(t / 10) + "." + Text.DecimalString(t % 10) + " MB"
  }

  /** Just below one megabyte the kilobyte label rounds up to "1024.0 KB". */
  lemma KilobyteLabelReaches1024()
    ensures FormatFileSize(1048575) == InKilobytes(10240)
    ensures SizeText(FormatFileSize(1048575)) == "1024.0 KB"
  {
    assert Text.DecimalString(1024) == "1024";
  }

  /** The form's state: the description text and the selected files. */
  class Form {
    var description: string
    var files: seq<File>

    /** At most two files are ever selected. */
    ghost predicate Valid()
      reads this
    {
      |files| <= MaxFiles
    }

    constructor ()
      ensures Valid() && description == "" && files == []
    {
      description := "";
      files := [];
    }

    /** `handleFileChange`: accept the whole selection or refuse it and keep `files`. */
    method HandleFileChange(selected: seq<File>) returns (rejection: C.Option<Rejection>)
      modifies this
      ensures rejection == CheckSelection(|old(files)|, selected)
      ensures files == if rejection.None? then old(files) + selected else old(files)
      ensures description == old(description)
      ensures old(Valid()) ==> Valid()
    {
      rejection := CheckSelection(|files|, selected);
      if rejection.None? {
        files := files + selected;
      }
    }

    /** `removeFile`: drop the file at `index`, keeping the others in order. */
    method RemoveFile(index: nat)
      requires index < |files|
      modifies this
      ensures files == old(files)[..index] + old(files)[index + 1..]
      ensures |files| == |old(files)| - 1
      ensures forall i :: 0 <= i < |files| ==> files[i] == old(files)[if i < index then i else i + 1]
      ensures description == old(description)
      ensures old(Valid()) ==> Valid()
    {
      files := files[..index] + files[index + 1..];
    }

    /** `handleSubmit`: the evidence passed to `onSubmit`, or nothing when the
        description is blank and no file is selected. */
    method HandleSubmit() returns (submitted: C.Option<Evidence>)
      ensures submitted.None? <==> Text.AllWhitespace(description) && files == []
      ensures submitted.Some? ==> submitted.value == Evidence(description, files)
    {
      Text.TrimEmpty(description);
      if Text.Trim(description) == "" && |files| == 0 {
        return C.None;
      }
      submitted := C.Some(Evidence(description, files));
    }
  }
}
