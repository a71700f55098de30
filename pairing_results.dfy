/**
 * The result codes the pairing reply callback hands to the host, and the
 * service-channel reply rule.
 */
module PairingResults {
  import opened Basics

  const BOND_RESULT_ERROR: int := -1000
  const BOND_RESULT_SUCCESS: int := 0
  const BOND_RESULT_AUTH_FAILED: int := 1
  const BOND_RESULT_AUTH_REJECTED: int := 2
  const BOND_RESULT_AUTH_CANCELED: int := 3
  const BOND_RESULT_REMOTE_DEVICE_DOWN: int := 4
  const BOND_RESULT_DISCOVERY_IN_PROGRESS: int := 5

  // BlueZ error names (BLUEZ_DBUS_BASE_IFC is "org.bluez").
  const AUTHENTICATION_FAILED: string := "org.bluez.Error.AuthenticationFailed"
  const AUTHENTICATION_REJECTED: string := "org.bluez.Error.AuthenticationRejected"
  const AUTHENTICATION_CANCELED: string := "org.bluez.Error.AuthenticationCanceled"
  const CONNECTION_ATTEMPT_FAILED: string := "org.bluez.Error.ConnectionAttemptFailed"
  const ALREADY_EXISTS: string := "org.bluez.Error.AlreadyExists"
  const IN_PROGRESS: string := "org.bluez.Error.InProgress"

  const BONDING_IN_PROGRESS: string := "Bonding in progress"
  const DISCOVER_IN_PROGRESS: string := "Discover in progress"

  /** The name and message of the D-Bus error a reply carries. */
  datatype DBusError = DBusError(name: string, message: string)

  /** The error names whose code does not depend on the message, with that code. */
  const CODE_BY_NAME: map<string, int> := map[
    AUTHENTICATION_FAILED := BOND_RESULT_AUTH_FAILED,
    AUTHENTICATION_REJECTED := BOND_RESULT_AUTH_REJECTED,
    AUTHENTICATION_CANCELED := BOND_RESULT_AUTH_CANCELED,
    CONNECTION_ATTEMPT_FAILED := BOND_RESULT_REMOTE_DEVICE_DOWN,
    ALREADY_EXISTS := BOND_RESULT_SUCCESS
  ]

  /**
   * onCreatePairedDeviceResult: the code passed to the host for a reply that
   * carries `err` (None: the reply is not an error), or None when the
   * callback is skipped ("Bonding in progress").
   */
  function CreatePairedDeviceResult(err: Option<DBusError>): (r: Option<int>)
    ensures err.None? ==> r == Some(BOND_RESULT_SUCCESS)
    ensures err.Some? && err.value.name in CODE_BY_NAME ==> r == Some(CODE_BY_NAME[err.value.name])
    ensures err.Some? && err.value.name == IN_PROGRESS ==>
      r == if err.value.message == BONDING_IN_PROGRESS then None
           else if err.value.message == DISCOVER_IN_PROGRESS then Some(BOND_RESULT_DISCOVERY_IN_PROGRESS)
           else Some(BOND_RESULT_ERROR)
    ensures err.Some? && err.value.name !in CODE_BY_NAME && err.value.name != IN_PROGRESS ==> r == Some(BOND_RESULT_ERROR)
    ensures r.None? <==> err == Some(DBusError(IN_PROGRESS, BONDING_IN_PROGRESS))
  {
    if err.None? then Some(BOND_RESULT_SUCCESS)
    else
      var name, message := err.value.name, err.value.message;
      if name == AUTHENTICATION_FAILED then Some(BOND_RESULT_AUTH_FAILED)
      else if name == AUTHENTICATION_REJECTED then Some(BOND_RESULT_AUTH_REJECTED)
      else if name == AUTHENTICATION_CANCELED then Some(BOND_RESULT_AUTH_CANCELED)
      else if name == CONNECTION_ATTEMPT_FAILED then Some(BOND_RESULT_REMOTE_DEVICE_DOWN)
      else if name == ALREADY_EXISTS then Some(BOND_RESULT_SUCCESS)
      else if name == IN_PROGRESS && message == BONDING_IN_PROGRESS then None
      else if name == IN_PROGRESS && message == DISCOVER_IN_PROGRESS then Some(BOND_RESULT_DISCOVERY_IN_PROGRESS)
      else Some(BOND_RESULT_ERROR)
  }

  /**
   * Every code handed to the host is one of the seven, and each failure code
   * other than the generic one identifies the error name it came from.
   */
  lemma PairedResultCodes(err: Option<DBusError>)
    ensures var r := CreatePairedDeviceResult(err);
      && (r.Some? ==> r.value in {BOND_RESULT_ERROR, BOND_RESULT_SUCCESS, BOND_RESULT_AUTH_FAILED, BOND_RESULT_AUTH_REJECTED,
                                  BOND_RESULT_AUTH_CANCELED, BOND_RESULT_REMOTE_DEVICE_DOWN, BOND_RESULT_DISCOVERY_IN_PROGRESS})
      && (r == Some(BOND_RESULT_AUTH_FAILED) ==> err.Some? && err.value.name == AUTHENTICATION_FAILED)
      && (r == Some(BOND_RESULT_AUTH_REJECTED) ==> err.Some? && err.value.name == AUTHENTICATION_REJECTED)
      && (r == Some(BOND_RESULT_AUTH_CANCELED) ==> err.Some? && err.value.name == AUTHENTICATION_CANCELED)
      && (r == Some(BOND_RESULT_REMOTE_DEVICE_DOWN) ==> err.Some? && err.value.name == CONNECTION_ATTEMPT_FAILED)
      && (r == Some(BOND_RESULT_DISCOVERY_IN_PROGRESS) ==> err == Some(DBusError(IN_PROGRESS, DISCOVER_IN_PROGRESS)))
      && (r == Some(BOND_RESULT_SUCCESS) ==> err.None? || err.value.name == ALREADY_EXISTS)
  {
  }

  /** A service-channel reply: an error, or a method return whose INT32 argument may fail to parse. */
  datatype ChannelReply = ErrorReply(err: DBusError) | MethodReturn(channel: Option<int32>)

  /** onGetDeviceServiceChannelResult: the channel handed to the host, -2 on any error. */
  function ServiceChannelResult(reply: ChannelReply): (channel: int)
    ensures channel == -2 <==> reply.ErrorReply? || reply.channel.None? || reply.channel.value == -2
    ensures reply.MethodReturn? && reply.channel.Some? ==> channel == reply.channel.value as int
  {
    match reply
    case ErrorReply(_) => -2
    case MethodReturn(None) => -2
    case MethodReturn(Some(c)) => c as int
  }
}
