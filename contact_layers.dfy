/** How the three contact validators relate: the form in the browser, the
    Express endpoint, and the serverless handler check the same four fields
    with different rules. */
module ContactLayers {
  import opened Js
  import Form = ContactForm
  import Express = ContactController
  import Api = ContactApi

  /** Whatever name, subject and message the Express rules accept, the form
      accepts too: its rules for those fields are weaker. */
  lemma ExpressAcceptanceImpliesForm(d: Form.FormData)
    requires Express.NameAccepted(d.name) && Express.SubjectAccepted(d.subject)
    requires Express.MessageAccepted(d.message)
    ensures Form.Name !in Form.FormErrors(d)
    ensures Form.Subject !in Form.FormErrors(d)
    ensures Form.Message !in Form.FormErrors(d)
  {
    TrimIsInnerSlice(d.message);
    var t := Trim(d.message);
    TrimIdempotent(d.message);
    BlankIffAllWhitespace(d.message);
    assert !IsWhitespace(t[0]) by {
      TrimIsInnerSlice(t);
    }
    var a, b :| 0 <= a <= b <= |d.message| && t == d.message[a..b];
    assert t[0] == d.message[a];
  }

  /** The converse fails: the form counts the padding of a message, the Express
      rule counts only what is left after trimming. */
  lemma PaddedMessageSplitsLayers()
    ensures Form.Message !in Form.FormErrors(Form.FormData("Ann", "a@b.c", "Hi", "   abc    "))
    ensures Express.MessageDetails("   abc    ") ==
      [Express.Detail("message", "Message must be between 10 and 5000 characters")]
  {
    Form.PaddedShortMessagePasses();
    PaddedMessageTrimsShort();
  }

  lemma PaddedMessageTrimsShort()
    ensures Trim("   abc    ") == "abc"
  {
    TrimPadded("   ", "abc", "    ");
    assert "   " + "abc" + "    " == "   abc    ";
  }

  /** The serverless handler only tests that each field is present: fields of
      spaces that the form refuses as missing reach both mails there. */
  lemma BlankFieldsSplitLayers()
    ensures var d := Form.FormData(" ", " ", " ", " ");
      Form.Name in Form.FormErrors(d) && Form.Subject in Form.FormErrors(d) &&
      Form.Message in Form.FormErrors(d)
    ensures Api.Decide(Api.ApiRequest("POST", Some(Api.ContactFields(Some(" "), Some(" "), Some(" "), Some(" ")))),
                       true, true) == Api.Answered(200, Api.SuccessJson("Email sent successfully"))
  {
    BlankIffAllWhitespace(" ");
  }
}
