/** The attachment list of a course: an upload appends the stored file's
    name, a delete removes the first occurrence of a name, and after
    either the whole list is sent to the course update. */
module AttachmentForm {
  import opened Common

  const UploadFailedMessage := "Une erreur s'est produite"

  /** `s.indexOf(x)`: the position of the first occurrence, or -1. */
  function IndexOf(s: seq<string>, x: string): (r: int)
    ensures r == -1 <==> x !in s
    ensures r != -1 ==> 0 <= r < |s| && s[r] == x && x !in s[..r]
  {
    if s == [] then -1
    else if s[0] == x then 0
    else
      var i := IndexOf(s[1..], x);
      if i == -1 then -1
      else
        assert s[..i + 1] == [s[0]] + s[1..][..i];
        i + 1
  }

  /** Removing the first occurrence of `x`, element by element: the
      reference the in-place removal is checked against. */
  function RemoveFirst(s: seq<string>, x: string): seq<string> {
    if s == [] then []
    else if s[0] == x then s[1..]
    else [s[0]] + RemoveFirst(s[1..], x)
  }

  /** `splice(indexOf(x), 1)` on a list containing `x` leaves exactly the
      list without its first `x`. */
  lemma {:induction false} SpliceRemovesFirst(s: seq<string>, x: string)
    requires x in s
    ensures var i := IndexOf(s, x); s[..i] + s[i + 1..] == RemoveFirst(s, x)
  {
    if s[0] != x {
      assert x in s[1..];
      SpliceRemovesFirst(s[1..], x);
      var i := IndexOf(s[1..], x);
      assert s[..i + 1] == [s[0]] + s[1..][..i];
      assert s[i + 2..] == s[1..][i + 1..];
    }
  }

  /** Removing the first `x` shortens the list by one and takes one `x` out
      of its contents; a list without `x` is left as it is. */
  lemma {:induction false} RemoveFirstContents(s: seq<string>, x: string)
    ensures x in s ==> |RemoveFirst(s, x)| == |s| - 1 && multiset(RemoveFirst(s, x)) == multiset(s) - multiset{x}
    ensures x !in s ==> RemoveFirst(s, x) == s
  {
    if s != [] {
      RemoveFirstContents(s[1..], x);
      assert s == [s[0]] + s[1..];
    }
  }

  class AttachmentList {
    const courseId: string
    var attachments: seq<string>
    /** The lists sent to the course update, oldest first. */
    var sent: seq<seq<string>>

    constructor (courseId: string, initial: seq<string>)
      ensures this.courseId == courseId && attachments == initial && sent == []
    {
      this.courseId := courseId;
      attachments := initial;
      sent := [];
    }

    /** `onSubmit(initialData)`: the whole current list goes to the update. */
    method Submit()
      modifies this
      ensures attachments == old(attachments) && sent == old(sent) + [attachments]
    {
      sent := sent + [attachments];
    }

    /** `handleFileChange`: the upload's stored name (None when the upload
        failed) is pushed at the end and the list sent; a failure changes
        nothing and reports the error. */
    method HandleFileChange(upload: Option<string>) returns (error: Option<string>)
      modifies this
      ensures upload.Some? ==>
        && attachments == old(attachments) + [upload.value]
        && sent == old(sent) + [attachments] && error == None
      ensures upload.None? ==>
        attachments == old(attachments) && sent == old(sent) && error == Some(UploadFailedMessage)
    {
      if upload.Some? {
        attachments := attachments + [upload.value];
        Submit();
        error := None;
      } else {
        error := Some(UploadFailedMessage);
      }
    }

    /** `onDelete`: the first occurrence of the name is spliced out and the
        list sent; a name not in the list changes and sends nothing. */
    method OnDelete(attachment: string)
      modifies this
      ensures attachments == RemoveFirst(old(attachments), attachment)
      ensures attachment in old(attachments) ==> sent == old(sent) + [attachments]
      ensures attachment !in old(attachments) ==> sent == old(sent) && attachments == old(attachments)
    {
      var index := IndexOf(attachments, attachment);
      if index != -1 {
        SpliceRemovesFirst(attachments, attachment);
        attachments := attachments[..index] + attachments[index + 1..];
        Submit();
      } else {
        RemoveFirstContents(attachments, attachment);
      }
    }
  }
}
