/**
 * Channel.Interface.SASLAuthentication: the fixed description of the SASL
 * exchange, the current status with its error, the five requests that are
 * handed to callbacks, and the NewChallenge and SASLStatusChanged
 * notifications.
 */
module Sasl {
  import opened Values
  import opened Names
  import opened Properties
  import opened Events

  /** SASL_Status_Not_Started. */
  const StatusNotStarted: UInt32 := 0

  /** The immutable properties of the interface, in the order they are inserted. */
  const PropertyWords := ["AvailableMechanisms", "HasInitialData", "CanTryAgain", "AuthorizationIdentity",
                           "DefaultUsername", "DefaultRealm", "MaySaveResponse"]

  lemma PropertyWordsDotFree()
    ensures forall i :: 0 <= i < |PropertyWords| ==> '.' !in PropertyWords[i]
    ensures NoDup(PropertyWords)
  {
    assert '.' !in PropertyWords[0] && '.' !in PropertyWords[1] && '.' !in PropertyWords[2];
    assert '.' !in PropertyWords[3] && '.' !in PropertyWords[4] && '.' !in PropertyWords[5];
    assert '.' !in PropertyWords[6];
  }

  class SaslAuthenticationInterface {
    const queue: EventQueue
    var registered: bool

    const availableMechanisms: seq<string>
    const hasInitialData: bool
    const canTryAgain: bool
    const authorizationIdentity: string
    const defaultUsername: string
    const defaultRealm: string
    const maySaveResponse: bool

    var saslStatus: UInt32
    var saslError: string
    var saslErrorDetails: VariantMap

    var startMechanismCallback: Option<string -> Option<DBusError>>
    var startMechanismWithDataCallback: Option<(string, seq<Byte>) -> Option<DBusError>>
    var respondCallback: Option<seq<Byte> -> Option<DBusError>>
    var acceptSaslCallback: Option<() -> Option<DBusError>>
    var abortSaslCallback: Option<(UInt32, string) -> Option<DBusError>>

    /** The exchange starts Not_Started, with no error and no callbacks: every request is not implemented. */
    constructor (queue: EventQueue, availableMechanisms: seq<string>, hasInitialData: bool, canTryAgain: bool,
                 authorizationIdentity: string, defaultUsername: string, defaultRealm: string, maySaveResponse: bool)
      ensures this.queue == queue && !registered
      ensures this.availableMechanisms == availableMechanisms && this.hasInitialData == hasInitialData
      ensures this.canTryAgain == canTryAgain && this.authorizationIdentity == authorizationIdentity
      ensures this.defaultUsername == defaultUsername && this.defaultRealm == defaultRealm
      ensures this.maySaveResponse == maySaveResponse
      ensures saslStatus == StatusNotStarted && saslError == "" && saslErrorDetails == map[]
      ensures forall m :: StartMechanism(m) == Some(NotImplemented)
      ensures forall m, d :: StartMechanismWithData(m, d) == Some(NotImplemented)
      ensures forall d :: Respond(d) == Some(NotImplemented)
      ensures AcceptSasl() == Some(NotImplemented)
      ensures forall reason, message :: AbortSasl(reason, message) == Some(NotImplemented)
    {
      this.queue := queue;
      registered := false;
      this.availableMechanisms := availableMechanisms;
      this.hasInitialData := hasInitialData;
      this.canTryAgain := canTryAgain;
      this.authorizationIdentity := authorizationIdentity;
      this.defaultUsername := defaultUsername;
      this.defaultRealm := defaultRealm;
      this.maySaveResponse := maySaveResponse;
      saslStatus := StatusNotStarted;
      saslError := "";
      saslErrorDetails := map[];
      startMechanismCallback := None;
      startMechanismWithDataCallback := None;
      respondCallback := None;
      acceptSaslCallback := None;
      abortSaslCallback := None;
    }

    /** The values of the immutable properties, in the order of PropertyWords. */
    function PropertyValues(): (r: seq<Value>)
      ensures |r| == |PropertyWords|
    {
      [StrList(availableMechanisms), Bool(hasInitialData), Bool(canTryAgain), Str(authorizationIdentity),
       Str(defaultUsername), Str(defaultRealm), Bool(maySaveResponse)]
    }

    /** The seven immutable properties, each named by the interface and one of PropertyWords. */
    function ImmutableProperties(): VariantMap
    {
      PropertyMap(SaslAuthenticationName, PropertyWords, PropertyValues())
    }

    /**
     * The immutable properties are exactly the seven words qualified by the
     * interface name, each holding the value of its field.
     */
    lemma ImmutablePropertiesNamed()
      ensures AllQualifiedBy(ImmutableProperties(), SaslAuthenticationName)
      ensures forall k :: k in ImmutableProperties() ==>
                exists i :: 0 <= i < |PropertyWords| && k == PropertyKey(SaslAuthenticationName, PropertyWords[i])
      ensures forall i :: 0 <= i < |PropertyWords| ==>
                PropertyKey(SaslAuthenticationName, PropertyWords[i]) in ImmutableProperties() &&
                ImmutableProperties()[PropertyKey(SaslAuthenticationName, PropertyWords[i])] == PropertyValues()[i]
    {
      PropertyWordsDotFree();
      PropertyMapKeys(SaslAuthenticationName, PropertyWords, PropertyValues());
      PropertyMapQualified(SaslAuthenticationName, PropertyWords, PropertyValues());
      PropertyMapValues(SaslAuthenticationName, PropertyWords, PropertyValues());
    }

    /** Records the new status and announces it with the reason and details given. */
    method SetSaslStatus(status: UInt32, reason: string, details: VariantMap)
      modifies this, queue
      ensures saslStatus == status
      ensures queue.events == old(queue.events) + [SaslStatusChanged(status, reason, details)]
      ensures saslError == old(saslError) && saslErrorDetails == old(saslErrorDetails)
      ensures registered == old(registered)
      ensures StartMechanism == old(StartMechanism) && StartMechanismWithData == old(StartMechanismWithData)
      ensures Respond == old(Respond) && AcceptSasl == old(AcceptSasl) && AbortSasl == old(AbortSasl)
    {
      saslStatus := status;
      queue.Post(SaslStatusChanged(status, reason, details));
    }

    /** Records the error name; the status and its notification are left alone. */
    method SetSaslError(error: string)
      modifies this
      ensures saslError == error
      ensures saslStatus == old(saslStatus) && saslErrorDetails == old(saslErrorDetails)
      ensures registered == old(registered)
    {
      saslError := error;
    }

    method SetSaslErrorDetails(details: VariantMap)
      modifies this
      ensures saslErrorDetails == details
      ensures saslStatus == old(saslStatus) && saslError == old(saslError)
      ensures registered == old(registered)
    {
      saslErrorDetails := details;
    }

    /** Hands a challenge from the server to the client. */
    method NewChallenge(data: seq<Byte>)
      modifies queue
      ensures queue.events == old(queue.events) + [Events.NewChallenge(data)]
    {
      queue.Post(Events.NewChallenge(data));
    }

    method SetStartMechanismCallback(callback: string -> Option<DBusError>)
      modifies this
      ensures forall m :: StartMechanism(m) == callback(m)
      ensures saslStatus == old(saslStatus) && registered == old(registered)
    {
      startMechanismCallback := Some(callback);
    }

    method SetStartMechanismWithDataCallback(callback: (string, seq<Byte>) -> Option<DBusError>)
      modifies this
      ensures forall m, d :: StartMechanismWithData(m, d) == callback(m, d)
      ensures saslStatus == old(saslStatus) && registered == old(registered)
    {
      startMechanismWithDataCallback := Some(callback);
    }

    method SetRespondCallback(callback: seq<Byte> -> Option<DBusError>)
      modifies this
      ensures forall d :: Respond(d) == callback(d)
      ensures saslStatus == old(saslStatus) && registered == old(registered)
    {
      respondCallback := Some(callback);
    }

    method SetAcceptSaslCallback(callback: () -> Option<DBusError>)
      modifies this
      ensures AcceptSasl() == callback()
      ensures saslStatus == old(saslStatus) && registered == old(registered)
    {
      acceptSaslCallback := Some(callback);
    }

    method SetAbortSaslCallback(callback: (UInt32, string) -> Option<DBusError>)
      modifies this
      ensures forall reason, message :: AbortSasl(reason, message) == callback(reason, message)
      ensures saslStatus == old(saslStatus) && registered == old(registered)
    {
      abortSaslCallback := Some(callback);
    }

    /** The StartMechanism request: NotImplemented while no callback is set. */
    function StartMechanism(mechanism: string): (r: Option<DBusError>)
      reads this
      ensures startMechanismCallback.None? ==> r == Some(NotImplemented)
    {
      match startMechanismCallback
      case None => Some(NotImplemented)
      case Some(callback) => callback(mechanism)
    }

    /** The StartMechanismWithData request: NotImplemented while no callback is set. */
    function StartMechanismWithData(mechanism: string, initialData: seq<Byte>): (r: Option<DBusError>)
      reads this
      ensures startMechanismWithDataCallback.None? ==> r == Some(NotImplemented)
    {
      match startMechanismWithDataCallback
      case None => Some(NotImplemented)
      case Some(callback) => callback(mechanism, initialData)
    }

    /** The Respond request: NotImplemented while no callback is set. */
    function Respond(responseData: seq<Byte>): (r: Option<DBusError>)
      reads this
      ensures respondCallback.None? ==> r == Some(NotImplemented)
    {
      match respondCallback
      case None => Some(NotImplemented)
      case Some(callback) => callback(responseData)
    }

    /** The AcceptSASL request: NotImplemented while no callback is set. */
    function AcceptSasl(): (r: Option<DBusError>)
      reads this
      ensures acceptSaslCallback.None? ==> r == Some(NotImplemented)
    {
      match acceptSaslCallback
      case None => Some(NotImplemented)
      case Some(callback) => callback()
    }

    /** The AbortSASL request: NotImplemented while no callback is set. */
    function AbortSasl(reason: UInt32, debugMessage: string): (r: Option<DBusError>)
      reads this
      ensures abortSaslCallback.None? ==> r == Some(NotImplemented)
    {
      match abortSaslCallback
      case None => Some(NotImplemented)
      case Some(callback) => callback(reason, debugMessage)
    }
  }
}
