/** The profile page of features/ProfileScreen.tsx: the avatar upload guard,
    the feedback form with its delayed completion, the support enquiry and
    the avatar fallback. Its two callbacks, `onUpdateAvatar` and `onLogout`,
    belong to the controller (module App); here an avatar accepted for upload
    is returned to the caller instead. */
module ProfileScreen {
  import opened Types
  import Text

  /** The largest accepted image, in bytes: 2 MiB. */
  const MaxAvatarBytes: nat := 2 * 1024 * 1024

  /** The picked file: its size and the data URL the reader produces. */
  datatype PickedFile = PickedFile(size: nat, dataUrl: string)

  /** `handleFileChange`: the data URL handed to `onUpdateAvatar`, or `None`
      when no file was picked or the file is larger than 2 MiB. */
  function AvatarForUpload(file: Option<PickedFile>): (r: Option<string>)
    ensures r.Some? <==> file.Some? && file.value.size <= MaxAvatarBytes
    ensures r.Some? ==> r.value == file.value.dataUrl
  {
    match file
    case None => None
    case Some(f) => if f.size > MaxAvatarBytes then None else Some(f.dataUrl)
  }

  /** The boundary: exactly 2 MiB passes, one byte more is rejected. */
  lemma AvatarSizeBoundary(dataUrl: string)
    ensures AvatarForUpload(Some(PickedFile(2097152, dataUrl))) == Some(dataUrl)
    ensures AvatarForUpload(Some(PickedFile(2097153, dataUrl))) == None
  {
  }

  /** What the avatar circle shows. */
  datatype AvatarView = Photo(url: string) | Initial(letter: string)

  /** `user.avatar ? <img> : user.name.charAt(0)`; the letter is upper-cased by
      the style sheet only. */
  function AvatarShown(u: User): (v: AvatarView)
    ensures v.Photo? <==> u.avatar.Some? && u.avatar.value != ""
    ensures v.Photo? ==> v.url == u.avatar.value
    ensures v.Initial? ==> v.letter == (if u.name == "" then "" else [u.name[0]])
  {
    if u.avatar.Some? && u.avatar.value != "" then Photo(u.avatar.value)
    else Initial(Text.CharAt0(u.name))
  }

  /** The support address of the enquiry link. */
  const SupportAddress := "studentstudyhub@gmail.com"

  /** The mail the enquiry link opens: recipient, subject and body. */
  datatype Mail = Mail(recipient: string, subject: string, body: string)

  /** The feedback button is disabled while sending or while the text is
      whitespace only. */
  predicate FeedbackButtonDisabled(isSubmitting: bool, feedback: string)
  {
    isSubmitting || Text.Trim(feedback) == []
  }

  /** The enquiry button is disabled while the text is whitespace only. */
  predicate SupportButtonDisabled(enquiry: string)
  {
    Text.Trim(enquiry) == []
  }

  /** The buttons are disabled exactly when the handlers would do nothing. */
  lemma ButtonsMatchGuards(isSubmitting: bool, feedback: string, enquiry: string)
    ensures FeedbackButtonDisabled(isSubmitting, feedback) <==> isSubmitting || Text.IsBlank(feedback)
    ensures SupportButtonDisabled(enquiry) <==> Text.IsBlank(enquiry)
  {
    Text.TrimEmptyIffBlank(feedback);
    Text.TrimEmptyIffBlank(enquiry);
  }

  class Profile {
    var showFeedbackModal: bool
    var showSupportModal: bool
    var feedback: string
    var enquiry: string
    var isSubmitting: bool

    constructor ()
      ensures !showFeedbackModal && !showSupportModal && !isSubmitting
      ensures feedback == "" && enquiry == ""
    {
      showFeedbackModal := false;
      showSupportModal := false;
      feedback := "";
      enquiry := "";
      isSubmitting := false;
    }

    /** The "Submit Feedback" entry opens its modal. */
    method OpenFeedbackModal()
      modifies this`showFeedbackModal
      ensures showFeedbackModal
    {
      showFeedbackModal := true;
    }

    /** The "Contact Support" entry opens its modal. */
    method OpenSupportModal()
      modifies this`showSupportModal
      ensures showSupportModal
    {
      showSupportModal := true;
    }

    /** The close button of the feedback modal. */
    method CloseFeedbackModal()
      modifies this`showFeedbackModal
      ensures !showFeedbackModal
    {
      showFeedbackModal := false;
    }

    /** The close button of the support modal. */
    method CloseSupportModal()
      modifies this`showSupportModal
      ensures !showSupportModal
    {
      showSupportModal := false;
    }

    /** The feedback text area's `onChange`. */
    method EditFeedback(text: string)
      modifies this`feedback
      ensures feedback == text
    {
      feedback := text;
    }

    /** The enquiry text area's `onChange`. */
    method EditEnquiry(text: string)
      modifies this`enquiry
      ensures enquiry == text
    {
      enquiry := text;
    }

    /** `handleFeedbackSubmit`, up to the timer: whitespace-only feedback does
        nothing; otherwise sending starts. */
    method HandleFeedbackSubmit()
      modifies this
      ensures Text.IsBlank(old(feedback)) ==> isSubmitting == old(isSubmitting)
      ensures !Text.IsBlank(old(feedback)) ==> isSubmitting
      ensures feedback == old(feedback) && showFeedbackModal == old(showFeedbackModal)
      ensures enquiry == old(enquiry) && showSupportModal == old(showSupportModal)
    {
      Text.TrimEmptyIffBlank(feedback);
      if Text.Trim(feedback) == [] {
        return;
      }
      isSubmitting := true;
    }

    /** The timer callback of `handleFeedbackSubmit`: sending ends, the modal
        closes and the text is cleared. */
    method FeedbackTimerElapsed()
      modifies this
      ensures !isSubmitting && !showFeedbackModal && feedback == ""
      ensures enquiry == old(enquiry) && showSupportModal == old(showSupportModal)
    {
      isSubmitting := false;
      showFeedbackModal := false;
      feedback := "";
    }

    /** `handleSupportSend`: whitespace-only enquiries do nothing; otherwise
        the mail is opened (`Some`), the modal closes and the text is cleared. */
    method HandleSupportSend(user: User) returns (mail: Option<Mail>)
      modifies this`showSupportModal, this`enquiry
      ensures Text.IsBlank(old(enquiry)) ==>
        mail == None && enquiry == old(enquiry) && showSupportModal == old(showSupportModal)
      ensures !Text.IsBlank(old(enquiry)) ==>
        && mail == Some(Mail(SupportAddress, "Enquiry from " + user.name, old(enquiry)))
        && !showSupportModal && enquiry == ""
      ensures feedback == old(feedback) && showFeedbackModal == old(showFeedbackModal)
      ensures isSubmitting == old(isSubmitting)
    {
      Text.TrimEmptyIffBlank(enquiry);
      if Text.Trim(enquiry) == [] {
        return None;
      }
      mail := Some(Mail(SupportAddress, "Enquiry from " + user.name, enquiry));
      showSupportModal := false;
      enquiry := "";
    }
  }
}
