/**
 * Channel.Interface.CaptchaAuthentication1: whether a failed attempt may be
 * retried, the status of the exchange with its error, and four requests
 * handed to callbacks that the connection manager must install.
 */
module Captcha {
  import opened Values
  import opened Names
  import opened Properties

  /** The Captcha_Status values. */
  const StatusLocalPending: UInt32 := 0
  const StatusLocalPendingWithError: UInt32 := 1
  const StatusRemotePending: UInt32 := 2
  const StatusSucceeded: UInt32 := 3
  const StatusTryAgain: UInt32 := 4
  const StatusFailed: UInt32 := 5

  /** One challenge offered to the user. */
  datatype CaptchaInfo = CaptchaInfo(id: UInt32, captchaType: string, labelText: string, flags: UInt32, availableMimeTypes: seq<string>)

  /** The reply to GetCaptchas: the challenges, how many must be answered, and their language. */
  datatype CaptchaListing = CaptchaListing(captchas: seq<CaptchaInfo>, numberRequired: UInt32, language: string)

  /**
   * The CaptchaStatus property read back after setCaptchaStatus(status), as
   * the code stands: the status is kept in a `bool`, so it reads back as 1
   * for every non-zero status.
   */
  function StatusReadBackAsWritten(status: UInt32): (r: UInt32)
    ensures r <= 1
    ensures r == 0 <==> status == StatusLocalPending
  {
    if status != 0 then 1 else 0
  }

  /** Setting RemotePending or Succeeded reads back as LocalPendingWithError. */
  lemma StatusAsWrittenIsLost()
    ensures StatusReadBackAsWritten(StatusRemotePending) == StatusLocalPendingWithError
    ensures StatusReadBackAsWritten(StatusSucceeded) == StatusLocalPendingWithError
    ensures exists s: UInt32 :: StatusReadBackAsWritten(s) != s
  {
    assert StatusReadBackAsWritten(StatusFailed) != StatusFailed;
  }

  class CaptchaAuthenticationInterface {
    var registered: bool
    const canRetryCaptcha: bool
    /** The status, kept as the full `uint` it is exchanged as (see StatusReadBackAsWritten). */
    var captchaStatus: UInt32
    var captchaError: string
    var captchaErrorDetails: VariantMap

    var getCaptchasCallback: Option<() -> Result<CaptchaListing>>
    var getCaptchaDataCallback: Option<(UInt32, string) -> Result<seq<Byte>>>
    var answerCaptchasCallback: Option<map<UInt32, string> -> Option<DBusError>>
    var cancelCaptchaCallback: Option<(UInt32, string) -> Option<DBusError>>

    /** The exchange starts LocalPending, with no error and no callbacks installed. */
    constructor (canRetryCaptcha: bool)
      ensures this.canRetryCaptcha == canRetryCaptcha && !registered
      ensures captchaStatus == StatusLocalPending && captchaError == "" && captchaErrorDetails == map[]
      ensures getCaptchasCallback == None && getCaptchaDataCallback == None
      ensures answerCaptchasCallback == None && cancelCaptchaCallback == None
    {
      this.canRetryCaptcha := canRetryCaptcha;
      registered := false;
      captchaStatus := StatusLocalPending;
      captchaError := "";
      captchaErrorDetails := map[];
      getCaptchasCallback := None;
      getCaptchaDataCallback := None;
      answerCaptchasCallback := None;
      cancelCaptchaCallback := None;
    }

    /** The one immutable property, CanRetryCaptcha, qualified by the interface name. */
    function ImmutableProperties(): VariantMap
    {
      map[PropertyKey(CaptchaAuthenticationName, "CanRetryCaptcha") := Bool(canRetryCaptcha)]
    }

    /** The only immutable property is CanRetryCaptcha, and it holds the field's value. */
    lemma ImmutablePropertiesNamed()
      ensures AllQualifiedBy(ImmutableProperties(), CaptchaAuthenticationName)
      ensures ImmutableProperties().Keys == {PropertyKey(CaptchaAuthenticationName, "CanRetryCaptcha")}
      ensures ImmutableProperties()[PropertyKey(CaptchaAuthenticationName, "CanRetryCaptcha")] == Bool(canRetryCaptcha)
    {
      KeysQualified(CaptchaAuthenticationName);
    }

    /** The CaptchaStatus property as the bus reads it. */
    function CaptchaStatus(): UInt32
      reads this
    {
      captchaStatus
    }

    /**
     * Records a new status, which reads back unchanged; unlike the SASL
     * interface no notification is sent.
     */
    method SetCaptchaStatus(status: UInt32)
      modifies this
      ensures CaptchaStatus() == status
      ensures captchaError == old(captchaError) && captchaErrorDetails == old(captchaErrorDetails)
      ensures registered == old(registered)
    {
      captchaStatus := status;
    }

    method SetCaptchaError(error: string)
      modifies this
      ensures captchaError == error
      ensures captchaStatus == old(captchaStatus) && captchaErrorDetails == old(captchaErrorDetails)
      ensures registered == old(registered)
    {
      captchaError := error;
    }

    method SetCaptchaErrorDetails(details: VariantMap)
      modifies this
      ensures captchaErrorDetails == details
      ensures captchaStatus == old(captchaStatus) && captchaError == old(captchaError)
      ensures registered == old(registered)
    {
      captchaErrorDetails := details;
    }

    method SetGetCaptchasCallback(callback: () -> Result<CaptchaListing>)
      modifies this
      ensures getCaptchasCallback.Some? && GetCaptchas() == callback()
      ensures captchaStatus == old(captchaStatus) && registered == old(registered)
    {
      getCaptchasCallback := Some(callback);
    }

    method SetGetCaptchaDataCallback(callback: (UInt32, string) -> Result<seq<Byte>>)
      modifies this
      ensures getCaptchaDataCallback.Some?
      ensures forall id, mimeType :: GetCaptchaData(id, mimeType) == callback(id, mimeType)
      ensures captchaStatus == old(captchaStatus) && registered == old(registered)
    {
      getCaptchaDataCallback := Some(callback);
    }

    method SetAnswerCaptchasCallback(callback: map<UInt32, string> -> Option<DBusError>)
      modifies this
      ensures answerCaptchasCallback.Some?
      ensures forall answers :: AnswerCaptchas(answers) == callback(answers)
      ensures captchaStatus == old(captchaStatus) && registered == old(registered)
    {
      answerCaptchasCallback := Some(callback);
    }

    method SetCancelCaptchaCallback(callback: (UInt32, string) -> Option<DBusError>)
      modifies this
      ensures cancelCaptchaCallback.Some?
      ensures forall reason, message :: CancelCaptcha(reason, message) == callback(reason, message)
      ensures captchaStatus == old(captchaStatus) && registered == old(registered)
    {
      cancelCaptchaCallback := Some(callback);
    }

    /** The GetCaptchas request: the installed callback's listing or error. */
    function GetCaptchas(): Result<CaptchaListing>
      requires getCaptchasCallback.Some?
      reads this
    {
      getCaptchasCallback.value()
    }

    /** The GetCaptchaData request: the installed callback's image bytes or error. */
    function GetCaptchaData(id: UInt32, mimeType: string): Result<seq<Byte>>
      requires getCaptchaDataCallback.Some?
      reads this
    {
      getCaptchaDataCallback.value(id, mimeType)
    }

    /** The AnswerCaptchas request: the installed callback's error, if any. */
    function AnswerCaptchas(answers: map<UInt32, string>): Option<DBusError>
      requires answerCaptchasCallback.Some?
      reads this
    {
      answerCaptchasCallback.value(answers)
    }

    /** The CancelCaptcha request: the installed callback's error, if any. */
    function CancelCaptcha(reason: UInt32, debugMessage: string): Option<DBusError>
      requires cancelCaptchaCallback.Some?
      reads this
    {
      cancelCaptchaCallback.value(reason, debugMessage)
    }
  }
}
