/**
 * The handlers of routes.js as functions from what a request brings (the
 * outcome of the upload middleware, the body fields, and whether the mail
 * relay accepted the message) to the HTTP response and the mail handed to
 * the relay, if the handler got that far.
 */
module Routes {
  import opened Wrappers
  import opened JsString
  import opened Upload

  const InternalServerError: string := "Internal server error"
  const NoAudioFileUploaded: string := "No audio file uploaded"
  const MissingEmailField: string := "Missing email field"
  const SubmittedAndSent: string := "Form submitted successfully and email sent"
  const NoFormDataFound: string := "No form data found"
  const NoEmailProvided: string := "No email provided"
  const AudioSubject: string := "Audio Submission Confirmation"
  const FormSubject: string := "Form Response"
  const HeadingSuffix: string := " Form Submission Details"

  /** The status `handleUpload` attaches to every upload error. */
  const UploadErrorStatus: int := 400

  /** Whether the mail relay accepted the message (`sendMail` resolved) or failed (it rejected). */
  datatype SendResult = Sent | SendFailed

  datatype Attachment = Attachment(filename: string, path: string)

  /** The values the HTML templates interpolate (the fixed markup around them is not represented). */
  datatype MailBody =
    | AudioConfirmation(submitter: string, agreement: string, filename: string, mimetype: string, size: nat)
    | FormResponse(
        heading: string,
        cancerType: Option<string>,
        condition: Option<string>,
        reason: Option<string>,
        fullName: Option<string>,
        phone: Option<string>,
        email: Option<string>)

  /** `mailOptions`; `to` is absent when the body had no email field. */
  datatype Mail = Mail(from: string, to: Option<string>, subject: string, html: MailBody, attachments: seq<Attachment>)

  /** `res.status(status).json({ message, formData })`; `data` is the echoed form data, if any. */
  datatype Response<D> = Response(status: int, message: string, data: Option<D>)

  /** The response, and the mail passed to `sendMail` if the handler reached that call. */
  datatype Outcome<D> = Outcome(response: Response<D>, mail: Option<Mail>)

  /** The text fields of the multipart body of `/submit-audio`. */
  datatype AudioFields = AudioFields(email: Option<string>, isAgreed: Option<string>)

  /** `formData` of `/submit-audio`. */
  datatype AudioFormData = AudioFormData(email: string, isAgreed: bool, audio: UploadedFile)

  /** The body fields of `/submit-form`, none of them required to be present. */
  datatype FormFields = FormFields(
    cancerType: Option<string>,
    condition: Option<string>,
    reason: Option<string>,
    fullName: Option<string>,
    phone: Option<string>,
    email: Option<string>,
    formName: Option<string>)

  // ---------------------------------------------------------------------------
  // GET /formdata

  /** A stub: every request is answered 404 with the same message. */
  function GetFormData(): (r: Response<()>)
    ensures r.status == 404 && r.message == NoFormDataFound && r.data == None
  {
    Response(404, NoFormDataFound, None)
  }

  // ---------------------------------------------------------------------------
  // The heading of the /submit-form mail

  /**
   * The character the title has at position `i`, read off the form name
   * alone: a dash becomes a space, the first character of a word (at the
   * start or after a dash) is upper-cased, every other character is kept.
   */
  function TitleChar(formName: string, i: nat): char
    requires i < |formName|
  {
    if formName[i] == '-' then ' '
    else if i == 0 || formName[i - 1] == '-' then ToUpperChar(formName[i])
    else formName[i]
  }

  /**
   * `formName.split('-').map(word => word.charAt(0).toUpperCase() + word.slice(1)).join(' ')`.
   * Its contract characterises it one character at a time through `TitleChar`.
   */
  function FormTitle(formName: string): (title: string)
    ensures |title| == |formName|
    ensures forall i :: 0 <= i < |formName| ==> title[i] == TitleChar(formName, i)
  {
    TitleIsScan(formName, true);
    ScanAt(formName, true);
    Join(CapitalizeAll(Split(formName, '-')), " ")
  }

  /**
   * The title built in one left-to-right pass; `wordStart` says whether the
   * next character begins a word.
   */
  function TitleScan(s: string, wordStart: bool): string {
    if s == "" then ""
    else if s[0] == '-' then " " + TitleScan(s[1..], true)
    else [if wordStart then ToUpperChar(s[0]) else s[0]] + TitleScan(s[1..], false)
  }

  /** The words of `s` as the title shows them: the first one upper-cased only at a word start. */
  function ShownWords(s: string, wordStart: bool): seq<string> {
    var pieces := Split(s, '-');
    if wordStart then CapitalizeAll(pieces) else [pieces[0]] + CapitalizeAll(pieces[1..])
  }

  lemma {:induction false} TitleIsScan(s: string, wordStart: bool)
    ensures Join(ShownWords(s, wordStart), " ") == TitleScan(s, wordStart)
  {
    if s != "" {
      TitleIsScan(s[1..], true);
      TitleIsScan(s[1..], false);
      if s[0] == '-' {
        ShownWordsAfterDash(s, wordStart);
      } else {
        ShownWordsInWord(s, wordStart);
      }
    }
  }

  /** A leading dash closes an empty first word; what follows starts a new one. */
  lemma ShownWordsAfterDash(s: string, wordStart: bool)
    requires s != "" && s[0] == '-'
    ensures Join(ShownWords(s, wordStart), " ") == " " + Join(ShownWords(s[1..], true), " ")
  {
    var rest := Split(s[1..], '-');
    var pieces := Split(s, '-');
    assert pieces == [""] + rest;
    assert pieces[0] == "" && pieces[1..] == rest;
    var shown := ShownWords(s, wordStart);
    var tail := CapitalizeAll(rest);
    CapitalizeAllCons("", rest);
    assert shown == [""] + tail;
    assert shown[1..] == tail;
    assert Join(shown, " ") == "" + " " + Join(tail, " ");
  }

  /** A leading non-dash character is the first character of the first word. */
  lemma ShownWordsInWord(s: string, wordStart: bool)
    requires s != "" && s[0] != '-'
    ensures Join(ShownWords(s, wordStart), " ") ==
      [if wordStart then ToUpperChar(s[0]) else s[0]] + Join(ShownWords(s[1..], false), " ")
  {
    var c := s[0];
    var rest := Split(s[1..], '-');
    var pieces := Split(s, '-');
    assert pieces == [[c] + rest[0]] + rest[1..];
    assert pieces[0] == [c] + rest[0] && pieces[1..] == rest[1..];
    var first := if wordStart then ToUpperChar(c) else c;
    var tail := ShownWords(s[1..], false);
    assert tail == [rest[0]] + CapitalizeAll(rest[1..]);
    assert tail[0] == rest[0] && tail[1..] == CapitalizeAll(rest[1..]);
    var shown := ShownWords(s, wordStart);
    if wordStart {
      assert Capitalize([c] + rest[0]) == [first] + rest[0];
      CapitalizeAllCons(pieces[0], pieces[1..]);
      assert [pieces[0]] + pieces[1..] == pieces;
    }
    assert shown == [[first] + tail[0]] + tail[1..];
    JoinPrependFirst([first], tail, " ");
  }

  /** The character of the scan at position `i`; at position 0 `wordStart` decides the case. */
  function ScanChar(s: string, wordStart: bool, i: nat): char
    requires i < |s|
  {
    if s[i] == '-' then ' '
    else if (if i == 0 then wordStart else s[i - 1] == '-') then ToUpperChar(s[i])
    else s[i]
  }

  lemma {:induction false} ScanAt(s: string, wordStart: bool)
    ensures |TitleScan(s, wordStart)| == |s|
    ensures forall i :: 0 <= i < |s| ==> TitleScan(s, wordStart)[i] == ScanChar(s, wordStart, i)
  {
    if s != "" {
      var next := s[0] == '-';
      ScanAt(s[1..], next);
      var head: string := if next then " " else [if wordStart then ToUpperChar(s[0]) else s[0]];
      var t := TitleScan(s, wordStart);
      assert t == head + TitleScan(s[1..], next);
      assert t[0] == ScanChar(s, wordStart, 0);
      forall i | 1 <= i < |s| ensures t[i] == ScanChar(s, wordStart, i) {
        assert t[i] == TitleScan(s[1..], next)[i - 1];
        assert TitleScan(s[1..], next)[i - 1] == ScanChar(s[1..], next, i - 1);
        assert s[1..][i - 1] == s[i];
        if i > 1 {
          assert s[1..][i - 2] == s[i - 1];
        }
      }
    }
  }

  /** The title keeps no dash: every dash became a space and upper-casing makes none. */
  lemma TitleHasNoDash(formName: string)
    ensures '-' !in FormTitle(formName)
  {
    var title := FormTitle(formName);
    forall i | 0 <= i < |title| ensures title[i] != '-' {
      ToUpperKeepsSeparators(formName[i]);
    }
  }

  /** Each dash of the form name contributes exactly one space; spaces already there stay. */
  lemma TitleSpaces(formName: string)
    ensures Count(FormTitle(formName), ' ') == Count(formName, '-') + Count(formName, ' ')
  {
    TitleIsScan(formName, true);
    ScanSpaces(formName, true);
  }

  lemma {:induction false} ScanSpaces(s: string, wordStart: bool)
    ensures Count(TitleScan(s, wordStart), ' ') == Count(s, '-') + Count(s, ' ')
  {
    if s != "" {
      var next := s[0] == '-';
      ScanSpaces(s[1..], next);
      var head: string := if next then " " else [if wordStart then ToUpperChar(s[0]) else s[0]];
      ToUpperKeepsSeparators(s[0]);
      assert TitleScan(s, wordStart) == head + TitleScan(s[1..], next);
      CountAppend(head, TitleScan(s[1..], next), ' ');
    }
  }

  /** The `<h2>` heading; without a form name `.split` throws a TypeError, written `None`. */
  function Heading(formName: Option<string>): (h: Option<string>)
    ensures h.None? <==> formName.None?
    ensures h.Some? ==> h.value == FormTitle(formName.value) + HeadingSuffix
    ensures h.Some? ==> EndsWith(h.value, HeadingSuffix) && |h.value| == |formName.value| + |HeadingSuffix|
  {
    match formName
    case None => None
    case Some(name) =>
      var h := FormTitle(name) + HeadingSuffix;
      assert h[|h| - |HeadingSuffix|..] == HeadingSuffix;
      Some(h)
  }

  lemma HeadingOfPatientIntake(name: string)
    requires name == "patient-intake"
    ensures Heading(Some(name)) == Some("Patient Intake" + HeadingSuffix)
  {
    TitleOfPatientIntake(name);
  }

  lemma TitleOfPatientIntake(name: string)
    requires name == "patient-intake"
    ensures FormTitle(name) == "Patient Intake"
  {
    var title := FormTitle(name);
    assert title[0] == TitleChar(name, 0) == 'P';
    assert title[1] == TitleChar(name, 1) == 'a';
    assert title[2] == TitleChar(name, 2) == 't';
    assert title[3] == TitleChar(name, 3) == 'i';
    assert title[4] == TitleChar(name, 4) == 'e';
    assert title[5] == TitleChar(name, 5) == 'n';
    assert title[6] == TitleChar(name, 6) == 't';
    assert title[7] == TitleChar(name, 7) == ' ';
    assert title[8] == TitleChar(name, 8) == 'I';
    assert title[9] == TitleChar(name, 9) == 'n';
    assert title[10] == TitleChar(name, 10) == 't';
    assert title[11] == TitleChar(name, 11) == 'a';
    assert title[12] == TitleChar(name, 12) == 'k';
    assert title[13] == TitleChar(name, 13) == 'e';
    assert title == "Patient Intake";
  }

  /** Consecutive dashes give an empty word between two spaces. */
  lemma HeadingWithEmptyPiece(name: string)
    requires name == "a--b"
    ensures Heading(Some(name)) == Some("A  B" + HeadingSuffix)
  {
    var title := FormTitle(name);
    assert title[0] == TitleChar(name, 0) == 'A';
    assert title[1] == TitleChar(name, 1) == ' ';
    assert title[2] == TitleChar(name, 2) == ' ';
    assert title[3] == TitleChar(name, 3) == 'B';
    assert title == "A  B";
  }

  // ---------------------------------------------------------------------------
  // POST /submit-audio

  /** `req.body.email || 'No email provided'`: an absent or empty email is replaced. */
  function DefaultEmail(email: Option<string>): (e: string)
    ensures e != ""
    ensures e == NoEmailProvided || email == Some(e)
    ensures email.Some? && email.value != "" ==> e == email.value
  {
    if email.Some? && email.value != "" then email.value else NoEmailProvided
  }

  /** `req.body.isAgreed === 'true'`. */
  function IsAgreed(isAgreed: Option<string>): (agreed: bool)
    ensures agreed <==> isAgreed.Some? && isAgreed.value == "true"
  {
    isAgreed == Some("true")
  }

  /** The confirmation mail, sent back to the address given in the form, with the file attached. */
  function AudioMail(sender: string, formData: AudioFormData): (m: Mail)
    ensures m.from == sender && m.to == Some(formData.email) && m.subject == AudioSubject
    ensures m.attachments == [Attachment(formData.audio.originalname, formData.audio.path)]
  {
    var file := formData.audio;
    Mail(
      sender,
      Some(formData.email),
      AudioSubject,
      AudioConfirmation(
        formData.email,
        if formData.isAgreed then "Agreed" else "Not Agreed",
        file.originalname,
        file.mimetype,
        file.size),
      [Attachment(file.originalname, file.path)])
  }

  /**
   * The `/submit-audio` handler. `sender` is the configured account
   * (`process.env.EMAIL_USER`); `send` is what the relay does with the mail.
   */
  function SubmitAudio(upload: UploadResult, body: AudioFields, send: SendResult, sender: string): (o: Outcome<AudioFormData>)
    ensures o.mail.Some? <==> upload.Uploaded? && upload.file.Some?
    ensures o.mail.Some? ==>
      && o.mail.value.to == Some(DefaultEmail(body.email))
      && |o.mail.value.attachments| == 1
      && o.mail.value.attachments[0].filename == upload.file.value.originalname
      && o.mail.value.attachments[0].path == upload.file.value.path
    ensures o.response.status == 201 <==> o.mail.Some? && send == Sent
    ensures o.response.status in {201, 400, 500}
    ensures o.response.message == MissingEmailField ==> upload == UploadFailed(MissingEmailField)
  {
    match upload
    case UploadFailed(message) =>
      // the outer catch: `error.status || 500` and `error.message || 'Internal server error'`
      Outcome(Response(UploadErrorStatus, if message == "" then InternalServerError else message, None), None)
    case Uploaded(None) =>
      Outcome(Response(400, NoAudioFileUploaded, None), None)
    case Uploaded(Some(file)) =>
      var formData := AudioFormData(DefaultEmail(body.email), IsAgreed(body.isAgreed), file);
      if formData.email == "" then
        Outcome(Response(400, MissingEmailField, Some(formData)), None)
      else
        var mail := AudioMail(sender, formData);
        match send
        case SendFailed => Outcome(Response(500, InternalServerError, None), Some(mail))
        case Sent => Outcome(Response(201, SubmittedAndSent, Some(formData)), Some(mail))
  }

  /** An upload error is answered 400 with its message (or the generic one if it has none), before any mail. */
  lemma SubmitAudioUploadError(message: string, body: AudioFields, send: SendResult, sender: string)
    ensures SubmitAudio(UploadFailed(message), body, send, sender) ==
      Outcome(Response(400, if message == "" then InternalServerError else message, None), None)
  {
  }

  /** An upload without a file part is answered 400, before any mail. */
  lemma SubmitAudioNoFile(body: AudioFields, send: SendResult, sender: string)
    ensures SubmitAudio(Uploaded(None), body, send, sender) == Outcome(Response(400, NoAudioFileUploaded, None), None)
  {
  }

  /** The `Missing email field` branch is dead: after defaulting the email is never empty. */
  lemma MissingEmailUnreachable(file: UploadedFile, body: AudioFields, send: SendResult, sender: string)
    ensures SubmitAudio(Uploaded(Some(file)), body, send, sender).response.message != MissingEmailField
    ensures SubmitAudio(Uploaded(Some(file)), body, send, sender).response.status != 400
  {
  }

  /** With a file, the mail goes out; the answer is 201 with the form data, or 500 when the relay fails. */
  lemma SubmitAudioWithFile(file: UploadedFile, body: AudioFields, send: SendResult, sender: string)
    ensures
      var formData := AudioFormData(DefaultEmail(body.email), IsAgreed(body.isAgreed), file);
      SubmitAudio(Uploaded(Some(file)), body, send, sender) ==
        Outcome(
          if send == Sent then Response(201, SubmittedAndSent, Some(formData))
          else Response(500, InternalServerError, None),
          Some(AudioMail(sender, formData)))
  {
  }

  /** A part whose type is not audio is rejected by the filter and answered 400; nothing is mailed. */
  lemma NonAudioUploadRejected(part: FilePart, now: Timestamp, body: AudioFields, send: SendResult, sender: string)
    requires !StartsWith(part.mimetype, AudioPrefix)
    ensures SubmitAudio(StoreSingle(Some(part), now), body, send, sender) ==
      Outcome(Response(400, OnlyAudioMessage, None), None)
  {
  }

  /**
   * An audio part is stored and mailed back to the form's address, attached
   * under its original name from `uploads/<timestamp>-<original name>`.
   */
  lemma AudioUploadMailed(part: FilePart, now: Timestamp, body: AudioFields, send: SendResult, sender: string)
    requires StartsWith(part.mimetype, AudioPrefix)
    ensures
      var o := SubmitAudio(StoreSingle(Some(part), now), body, send, sender);
      && o.mail.Some?
      && o.mail.value.to == Some(DefaultEmail(body.email))
      && o.mail.value.attachments ==
           [Attachment(part.originalname, UploadDestination + NumberToString(now) + "-" + part.originalname)]
      && (o.response.status == 201 <==> send == Sent)
  {
    var name := StoredFilename(now, part);
    assert UploadDestination + name == UploadDestination + NumberToString(now) + "-" + part.originalname;
  }

  // ---------------------------------------------------------------------------
  // POST /submit-form

  /** The form mail: addressed to the body's email verbatim, headed by the title of the form name. */
  function FormMail(sender: string, fields: FormFields, heading: string): (m: Mail)
    ensures m.from == sender && m.to == fields.email && m.subject == FormSubject && m.attachments == []
  {
    Mail(
      sender,
      fields.email,
      FormSubject,
      FormResponse(heading, fields.cancerType, fields.condition, fields.reason, fields.fullName, fields.phone, fields.email),
      [])
  }

  /** The `/submit-form` handler; every error inside its `try` is answered 500. */
  function SubmitForm(fields: FormFields, send: SendResult, sender: string): (o: Outcome<FormFields>)
    ensures o.mail.Some? <==> fields.formName.Some?
    ensures o.mail.Some? ==>
      && o.mail.value.to == fields.email
      && o.mail.value.attachments == []
      && o.mail.value.html.FormResponse?
      && o.mail.value.html.heading == FormTitle(fields.formName.value) + HeadingSuffix
    ensures o.mail.Some? ==> o.mail.value == FormMail(sender, fields, FormTitle(fields.formName.value) + HeadingSuffix)
    ensures o.response.status == 201 <==> fields.formName.Some? && send == Sent
    ensures o.response.status == 201 ==> o.response == Response(201, SubmittedAndSent, Some(fields))
    ensures o.response.status != 201 ==> o.response == Response(500, InternalServerError, None)
  {
    match Heading(fields.formName)
    case None => Outcome(Response(500, InternalServerError, None), None)
    case Some(heading) =>
      var mail := FormMail(sender, fields, heading);
      match send
      case SendFailed => Outcome(Response(500, InternalServerError, None), Some(mail))
      case Sent => Outcome(Response(201, SubmittedAndSent, Some(fields)), Some(mail))
  }

  /** Without a form name the heading throws before `sendMail`: 500 and no mail. */
  lemma SubmitFormWithoutName(fields: FormFields, send: SendResult, sender: string)
    requires fields.formName.None?
    ensures SubmitForm(fields, send, sender) == Outcome(Response(500, InternalServerError, None), None)
  {
  }

  /** The documented example: `patient-intake` heads the mail with `Patient Intake Form Submission Details`. */
  lemma SubmitFormPatientIntake(fields: FormFields, send: SendResult, sender: string)
    requires fields.formName == Some("patient-intake")
    ensures SubmitForm(fields, send, sender).mail.value.html.heading == "Patient Intake" + HeadingSuffix
  {
    HeadingOfPatientIntake(fields.formName.value);
  }
}
