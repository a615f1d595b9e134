/** The four transactional e-mails (lib/email/templates.ts): the brand merge
    and its application-name rule, the purpose wording of the one-time-code
    mail, the greeting, the subjects, the templates' own escape chain, and the
    content each template hands to `renderEmail`. */
module EmailTemplates {
  import opened Wrappers
  import opened TextUtil
  import opened EmailBase

  /** `Partial<EmailBrand>`: `None` is a field the caller left out. */
  datatype PartialBrand = PartialBrand(appName: Option<string>, primaryColor: Option<string>, accentColor: Option<string>,
                                       logoUrl: Option<string>, supportEmail: Option<string>, companyAddress: Option<string>)

  const DefaultAppName: string := "Cyber Scam Recovery Unit"

  /** `defaultBrand`. */
  const DefaultBrand: EmailBrand :=
    EmailBrand(DefaultAppName, Some("#0b1e3a"), Some("#14b87a"), None,
               Some("support@csrunit.example"), Some("PO Box 100, Portland, OR 97201"))

  /** A field of `{ ...defaultBrand, ...(params.brand || {}) }`: the caller's
      value when given, the default's otherwise. */
  function Override(given: Option<string>, default: Option<string>): (r: Option<string>)
    ensures given.Some? ==> r == given
    ensures given.None? ==> r == default
  {
    if given.Some? then given else default
  }

  /** The merged brand of every template: defaults, overridden by the
      caller's partial brand, with the application name
      `params.appName || (params.brand?.appName ?? defaultBrand.appName)`. */
  function MergeBrand(appName: Option<string>, brand: Option<PartialBrand>): (b: EmailBrand)
    ensures appName.Some? && appName.value != "" ==> b.appName == appName.value
    ensures (appName.None? || appName.value == "") && brand.Some? && brand.value.appName.Some?
            ==> b.appName == brand.value.appName.value
    ensures (appName.None? || appName.value == "") && (brand.None? || brand.value.appName.None?)
            ==> b.appName == DefaultAppName
    ensures brand.None? ==> b == DefaultBrand.(appName := b.appName)
    ensures brand.Some? ==>
      && b.primaryColor == Override(brand.value.primaryColor, DefaultBrand.primaryColor)
      && b.accentColor == Override(brand.value.accentColor, DefaultBrand.accentColor)
      && b.logoUrl == brand.value.logoUrl
      && b.supportEmail == Override(brand.value.supportEmail, DefaultBrand.supportEmail)
      && b.companyAddress == Override(brand.value.companyAddress, DefaultBrand.companyAddress)
  {
    var name := OrDefault(appName, if brand.Some? && brand.value.appName.Some? then brand.value.appName.value
                                   else DefaultAppName);
    match brand
    case None => DefaultBrand.(appName := name)
    case Some(p) =>
      EmailBrand(name, Override(p.primaryColor, DefaultBrand.primaryColor), Override(p.accentColor, DefaultBrand.accentColor),
                 Override(p.logoUrl, DefaultBrand.logoUrl), Override(p.supportEmail, DefaultBrand.supportEmail),
                 Override(p.companyAddress, DefaultBrand.companyAddress))
  }

  /** `purpose || 'verify'` and its wording. */
  function PurposeText(purpose: Option<string>): (t: string)
    ensures purpose == Some("login") ==> t == "to sign in"
    ensures purpose == Some("confirm_action") ==> t == "to confirm your action"
    ensures purpose != Some("login") && purpose != Some("confirm_action") ==> t == "to verify your email"
  {
    var p := OrDefault(purpose, "verify");
    if p == "login" then "to sign in"
    else if p == "confirm_action" then "to confirm your action"
    else "to verify your email"
  }

  /** The templates' own `escape`: the same five replacements, `&` first. */
  function Escape(str: string): (e: string)
    ensures e == EscapeHtml(str)
    ensures e == EscapeEach(str)
    ensures UnescapeHtml(e) == str
  {
    EscapeHtmlIsPerChar(str);
    EscapeRoundTrip(str);
    ReplaceChar(ReplaceChar(ReplaceChar(ReplaceChar(ReplaceChar(str, '&', "&amp;"), '<', "&lt;"), '>', "&gt;"),
                            '"', "&quot;"), '\'', "&#039;")
  }

  /** `escapeAttr` is `escape`. */
  function EscapeAttr(str: string): (e: string)
    ensures e == Escape(str)
    ensures forall i :: 0 <= i < |e| ==> IsSpecial(e[i]) ==> e[i] == '&'
  {
    EscapedHasNoMarkup(str);
    Escape(str)
  }

  /** `params.userName ? \`Hi ${escape(params.userName)},\` : 'Hi,'`. */
  function Greeting(userName: Option<string>): (g: string)
    ensures userName.None? || userName.value == "" ==> g == "Hi,"
    ensures userName.Some? && userName.value != "" ==> g == "Hi " + Escape(userName.value) + ","
    ensures forall i :: 0 <= i < |g| ==> IsSpecial(g[i]) ==> g[i] == '&'
  {
    if userName.Some? && userName.value != "" then
      var e := Escape(userName.value);
      EscapedHasNoMarkup(userName.value);
      var g := "Hi " + e + ",";
      assert forall i :: 3 <= i < 3 + |e| ==> g[i] == e[i - 3];
      g
    else "Hi,"
  }

  /** The decimal digits of a whole number, as a template literal shows it. */
  function NatToString(n: nat): (s: string)
    ensures |s| >= 1 && forall i :: 0 <= i < |s| ==> '0' <= s[i] <= '9'
    decreases n
  {
    var d := ((n % 10) + ('0' as int)) as char;
    if n < 10 then [d] else NatToString(n / 10) + [d]
  }

  // ----- otpEmail -----

  datatype OtpParams = OtpParams(code: string, expiresMinutes: nat, userName: Option<string>, appName: Option<string>,
                                 purpose: Option<string>, brand: Option<PartialBrand>)

  /** What `otpEmail` passes to `renderEmail`. */
  function OtpInput(p: OtpParams): (r: EmailRenderInput)
    ensures r.brand == MergeBrand(p.appName, p.brand)
    ensures r.subject == r.brand.appName + ": " + p.code + " is your one-time code"
    ensures r.heading == "Your verification code"
  {
    var brand := MergeBrand(p.appName, p.brand);
    var purposeText := PurposeText(p.purpose);
    var minutes := NatToString(p.expiresMinutes);
    var preview := "Use this code " + purposeText + ". Expires in " + minutes + " minutes.";
    EmailRenderInput(brand.appName + ": " + p.code + " is your one-time code", Some(preview),
                     "Your verification code", OtpContent(p, purposeText, minutes), brand)
  }

  /** The one-time-code mail's markup. */
  function OtpContent(p: OtpParams, purposeText: string, minutes: string): string {
    GreetingParagraph(p.userName) + OtpLead + purposeText + OtpExpiry + minutes + MinutesClose
    + CodeOpen + Escape(p.code) + CodeClose + OtpIgnore
  }

  // The fixed pieces of that markup, kept as named constants.
  const OtpLead: string := "    <p>Use the one-time code below "
  const OtpExpiry: string := ". This code expires in <strong>"
  const CodeOpen: string := "    <div style=\"margin:14px 0 6px 0;\">\n      <span class=\"code\">"
  const CodeClose: string := "</span>\n    </div>\n"
  const OtpIgnore: string :=
    "    <p style=\"margin-top:12px;\" class=\"muted\">If you did not request this code, you can safely ignore this email.</p>\n  "

  function OtpEmail(p: OtpParams): (e: RenderedEmail)
    ensures e == RenderEmail(OtpInput(p))
    ensures e.subject == MergeBrand(p.appName, p.brand).appName + ": " + p.code + " is your one-time code"
    ensures p.brand.None? ==> e.primary == "#0b1e3a" && e.accent == "#14b87a"
  {
    RenderEmail(OtpInput(p))
  }

  // ----- passwordResetEmail -----

  datatype PasswordResetParams = PasswordResetParams(resetLink: string, expiresMinutes: nat, userName: Option<string>,
                                                     appName: Option<string>, brand: Option<PartialBrand>)

  /** The opening line of every template's markup: `<p>${greet}</p>`. */
  function GreetingParagraph(userName: Option<string>): string {
    "\n    <p>" + Greeting(userName) + "</p>\n"
  }

  /** `minutes</strong>.</p>` after an expiry time. */
  const MinutesClose: string := " minutes</strong>.</p>\n"

  /** The button and the paragraph with the link spelled out, shared by the
      three link mails. */
  function LinkParagraphs(link: string, buttonLabel: string, primary: Option<string>): string {
    ButtonOpen + EscapeAttr(link) + ButtonAttrs + buttonLabel + ButtonClose
    + UrlOpen + EscapeAttr(link) + UrlStyle
    + (if primary.Some? then primary.value else "undefined") + UrlStyleEnd + Escape(link) + UrlClose
  }

  // The fixed pieces of that markup.
  const ButtonOpen: string := "    <p style=\"margin:14px 0;\">\n      <a class=\"btn\" href=\""
  const ButtonAttrs: string := "\" target=\"_blank\" rel=\"noopener\">"
  const ButtonClose: string := "</a>\n    </p>\n    <p>If the button doesn't work, copy and paste this URL into your browser:</p>\n"
  const UrlOpen: string := "    <p style=\"word-break: break-all;\"><a href=\""
  const UrlStyle: string := "\" style=\"color:"
  const UrlStyleEnd: string := "; text-decoration:none;\">"
  const UrlClose: string := "</a></p>\n"

  function PasswordResetInput(p: PasswordResetParams): (r: EmailRenderInput)
    ensures r.brand == MergeBrand(p.appName, p.brand)
    ensures r.subject == r.brand.appName + ": Password reset link"
    ensures r.heading == "Reset your password"
  {
    var brand := MergeBrand(p.appName, p.brand);
    var minutes := NatToString(p.expiresMinutes);
    EmailRenderInput(brand.appName + ": Password reset link", Some("Reset link expires in " + minutes + " minutes."),
                     "Reset your password", PasswordResetContent(p, minutes, brand.primaryColor), brand)
  }

  /** The password-reset mail's markup. */
  function PasswordResetContent(p: PasswordResetParams, minutes: string, primary: Option<string>): string {
    GreetingParagraph(p.userName) + ResetLead + minutes + MinutesClose
    + LinkParagraphs(p.resetLink, "Reset password", primary) + ResetIgnore
  }

  const ResetLead: string :=
    "    <p>We received a request to reset your password. Click the button below to continue. This link expires in <strong>"
  const ResetIgnore: string := "    <p class=\"muted\">If you didn\U{2019}t request this, you can safely ignore this email.</p>\n  "

  function PasswordResetEmail(p: PasswordResetParams): (e: RenderedEmail)
    ensures e == RenderEmail(PasswordResetInput(p))
    ensures e.subject == MergeBrand(p.appName, p.brand).appName + ": Password reset link"
    ensures p.brand.None? ==> e.primary == "#0b1e3a" && e.accent == "#14b87a"
  {
    RenderEmail(PasswordResetInput(p))
  }

  // ----- verifyEmailEmail -----

  datatype VerifyEmailParams = VerifyEmailParams(verifyLink: string, userName: Option<string>, appName: Option<string>,
                                                 brand: Option<PartialBrand>)

  function VerifyEmailInput(p: VerifyEmailParams): (r: EmailRenderInput)
    ensures r.brand == MergeBrand(p.appName, p.brand)
    ensures r.subject == r.brand.appName + ": Confirm your email"
    ensures r.heading == "Verify your email address"
  {
    var brand := MergeBrand(p.appName, p.brand);
    EmailRenderInput(brand.appName + ": Confirm your email", Some("Confirm your email to finish setting up your account."),
                     "Verify your email address", VerifyEmailContent(p, brand.primaryColor), brand)
  }

  /** The address-confirmation mail's markup. */
  function VerifyEmailContent(p: VerifyEmailParams, primary: Option<string>): string {
    GreetingParagraph(p.userName) + VerifyLead + LinkParagraphs(p.verifyLink, "Verify email", primary) + "  "
  }

  const VerifyLead: string :=
    "    <p>Thanks for signing up. Please confirm your email address by clicking the button below.</p>\n"

  function VerifyEmailEmail(p: VerifyEmailParams): (e: RenderedEmail)
    ensures e == RenderEmail(VerifyEmailInput(p))
    ensures e.subject == MergeBrand(p.appName, p.brand).appName + ": Confirm your email"
    ensures p.brand.None? ==> e.primary == "#0b1e3a" && e.accent == "#14b87a"
  {
    RenderEmail(VerifyEmailInput(p))
  }

  // ----- caseUpdateEmail -----

  /** `caseId` is the text `String(params.caseId)` gives. */
  datatype CaseUpdateParams = CaseUpdateParams(caseId: string, newStatus: string, detailsLink: string,
                                               userName: Option<string>, appName: Option<string>, brand: Option<PartialBrand>)

  function CaseUpdateInput(p: CaseUpdateParams): (r: EmailRenderInput)
    ensures r.brand == MergeBrand(p.appName, p.brand)
    ensures r.subject == r.brand.appName + ": Case #" + p.caseId + " is now " + p.newStatus
    ensures r.heading == "Case #" + p.caseId + " status update"
  {
    var brand := MergeBrand(p.appName, p.brand);
    EmailRenderInput(brand.appName + ": Case #" + p.caseId + " is now " + p.newStatus,
                     Some("Your case was updated to " + p.newStatus + "."),
                     "Case #" + p.caseId + " status update", CaseUpdateContent(p, brand.primaryColor), brand)
  }

  /** The status-update mail's markup. */
  function CaseUpdateContent(p: CaseUpdateParams, primary: Option<string>): string {
    GreetingParagraph(p.userName) + CaseLead + Escape(p.caseId) + CaseMiddle + Escape(p.newStatus) + CaseClose
    + LinkParagraphs(p.detailsLink, "View case details", primary) + "  "
  }

  const CaseLead: string := "    <p>Your case <strong>#"
  const CaseMiddle: string := "</strong> has been updated to <strong>"
  const CaseClose: string := "</strong>.</p>\n"

  function CaseUpdateEmail(p: CaseUpdateParams): (e: RenderedEmail)
    ensures e == RenderEmail(CaseUpdateInput(p))
    ensures e.subject == MergeBrand(p.appName, p.brand).appName + ": Case #" + p.caseId + " is now " + p.newStatus
    ensures p.brand.None? ==> e.primary == "#0b1e3a" && e.accent == "#14b87a"
  {
    RenderEmail(CaseUpdateInput(p))
  }

  // ----- properties -----

  /** `b + rest` starts with `b`. */
  lemma StartsWithConcat(b: string, rest: string)
    ensures StartsWith(b + rest, b)
  {
    assert (b + rest)[..|b|] == b;
  }

  /** A prefix stays a prefix when more text follows. */
  lemma StartsWithExtend(s: string, pre: string, more: string)
    requires StartsWith(s, pre)
    ensures StartsWith(s + more, pre)
  {
    assert (s + more)[..|pre|] == s[..|pre|];
  }

  /** `app + tail` opens with `app + ": "` when `tail` does with `": "`. */
  lemma AppPrefix(app: string, tail: string)
    requires StartsWith(tail, ": ")
    ensures StartsWith(app + tail, app + ": ")
  {
    assert (app + tail)[..|app| + 2] == app + tail[..2];
  }

  /** Every subject opens with the application name and a colon. */
  lemma OtpSubjectNamesApplication(p: OtpParams)
    ensures StartsWith(OtpEmail(p).subject, MergeBrand(p.appName, p.brand).appName + ": ")
  {
    var a := MergeBrand(p.appName, p.brand).appName;
    StartsWithConcat(a + ": ", p.code);
    StartsWithExtend(a + ": " + p.code, a + ": ", " is your one-time code");
  }

  lemma PasswordResetSubjectNamesApplication(p: PasswordResetParams)
    ensures StartsWith(PasswordResetEmail(p).subject, MergeBrand(p.appName, p.brand).appName + ": ")
  {
    AppPrefix(MergeBrand(p.appName, p.brand).appName, ": Password reset link");
  }

  lemma VerifyEmailSubjectNamesApplication(p: VerifyEmailParams)
    ensures StartsWith(VerifyEmailEmail(p).subject, MergeBrand(p.appName, p.brand).appName + ": ")
  {
    AppPrefix(MergeBrand(p.appName, p.brand).appName, ": Confirm your email");
  }

  lemma CaseUpdateSubjectNamesApplication(p: CaseUpdateParams)
    ensures StartsWith(CaseUpdateEmail(p).subject, MergeBrand(p.appName, p.brand).appName + ": ")
  {
    var a := MergeBrand(p.appName, p.brand).appName;
    AppPrefix(a, ": Case #");
    StartsWithExtend(a + ": Case #", a + ": ", p.caseId);
    StartsWithExtend(a + ": Case #" + p.caseId, a + ": ", " is now ");
    StartsWithExtend(a + ": Case #" + p.caseId + " is now ", a + ": ", p.newStatus);
  }

  /** The one-time-code subject carries the code itself, unescaped. */
  lemma OtpSubjectCarriesCode(p: OtpParams)
    ensures Includes(OtpEmail(p).subject, p.code)
  {
    var a := MergeBrand(p.appName, p.brand).appName + ": ";
    var s := OtpEmail(p).subject;
    CodeInSubject(a, p.code);
    assert s == a + p.code + " is your one-time code";
  }

  lemma CodeInSubject(a: string, code: string)
    ensures Includes(a + code + " is your one-time code", code)
  {
    var s := a + code + " is your one-time code";
    assert s[|a|..] == code + " is your one-time code";
    StartsWithConcat(code, " is your one-time code");
    assert StartsWith(s[|a|..], code);
  }

  /** No user name, whatever it holds, can put markup into the greeting. */
  lemma GreetingIsInert(userName: string)
    ensures forall i :: 0 <= i < |Greeting(Some(userName))| ==>
      Greeting(Some(userName))[i] != '<' && Greeting(Some(userName))[i] != '>'
  {
  }

  /** An empty application name counts as none. */
  lemma EmptyAppNameFallsBack(brand: Option<PartialBrand>)
    ensures MergeBrand(Some(""), brand) == MergeBrand(None, brand)
  {
  }
}
