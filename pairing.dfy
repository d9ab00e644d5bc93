/**
 * The browser side of remote pairing: code generation and acceptance, the
 * session flags of the page (`isHost`, `connected`, `currentPairCode`), the
 * selection push, and the copy routine with its same-key cooldown.
 *
 * The realtime database is an oracle: each call that needs it takes a
 * boolean saying whether the backend answered, and the methods return the
 * database path they would write. The random draw and the clock are
 * parameters.
 */
module Pairing {
  import opened Wrappers
  import opened Text
  import opened KeyCopy

  /** What `/^\d{4}$/` accepts: exactly four ASCII decimal digits. */
  predicate IsFourDigitCode(s: string)
  {
    |s| == 4 && AllDigits(s)
  }

  /**
   * `genCode`, with the random draw given as `n = floor(random * 9000)`:
   * the decimal string of `1000 + n`.
   */
  function GenCode(n: nat): (code: string)
    requires n < 9000
    ensures IsFourDigitCode(code)
    ensures DigitsValue(code) == 1000 + n
  {
    FourDigitLength(1000 + n);
    DecimalRoundTrip(1000 + n);
    DecimalString(1000 + n)
  }

  /** Different draws give different codes. */
  lemma GenCodeInjective(n: nat, m: nat)
    requires n < 9000 && m < 9000 && GenCode(n) == GenCode(m)
    ensures n == m
  {
  }

  /** The confirm dialog's check: the trimmed input if it is four digits. */
  function AcceptedCode(input: string): (r: Option<string>)
    ensures r.Some? <==> IsFourDigitCode(Trim(input))
    ensures r.Some? ==> r.value == Trim(input)
  {
    var code := Trim(input);
    if IsFourDigitCode(code) then Some(code) else None
  }

  /** A four-digit code typed with blanks around it is accepted as that code. */
  lemma AcceptsPaddedCode(before: string, code: string, after: string)
    requires AllBlank(before) && AllBlank(after) && IsFourDigitCode(code)
    ensures AcceptedCode(before + code + after) == Some(code)
  {
    assert IsDigit(code[0]) && IsDigit(code[3]);
    TrimBlanks(before, code, after);
  }

  /** Every generated code passes the confirm dialog unchanged. */
  lemma GeneratedCodeAccepted(n: nat)
    requires n < 9000
    ensures AcceptedCode(GenCode(n)) == Some(GenCode(n))
  {
    var code := GenCode(n);
    assert code == [] + code + [];
    AcceptsPaddedCode([], code, []);
  }

  /** A value pushed under `<code>/events`. */
  datatype Payload = Payload(kind: string, key: Option<string>, ts: int)

  /** A database push: its path and its value. */
  datatype Push = Push(path: string, payload: Payload)

  /**
   * The host listener's filter on an added event: a present value whose
   * type is `"select"` and whose key is neither null nor undefined.
   */
  function ListenedKey(val: Option<Payload>): (k: Option<string>)
    ensures k.Some? <==> val.Some? && val.value.kind == "select" && val.value.key.Some?
    ensures k.Some? ==> k == val.value.key
  {
    if val.Some? && val.value.kind == "select" then val.value.key else None
  }

  /** Result of the copy routine: the text written to the clipboard and the new stamp. */
  datatype CopyOutcome = CopyOutcome(written: Option<string>, lastKey: Option<string>, lastTime: int)

  /**
   * One call of the copy routine, starting from stamp (`lastKey`, `lastTime`).
   * `onPage` says whether a key element for `key` exists, `clipboardOk`
   * whether the clipboard write resolves, `stamp` the clock when it does.
   */
  function CopyStep(keyData: map<string, KeyEntry>, lastKey: Option<string>, lastTime: int,
                    key: string, now: int, onPage: bool, clipboardOk: bool, stamp: int): (o: CopyOutcome)
    ensures Blocked(lastKey, lastTime, key, now) || !onPage ==>
              o == CopyOutcome(None, lastKey, lastTime)
    ensures o.written.Some? <==>
              !Blocked(lastKey, lastTime, key, now) && onPage && clipboardOk
              && Trim(DescriptionOf(keyData, key)) != ""
    ensures o.written.Some? ==> o == CopyOutcome(Some(DescriptionOf(keyData, key)), Some(key), stamp)
    ensures o.written.None? ==> o.lastKey == lastKey && o.lastTime == lastTime
  {
    if Blocked(lastKey, lastTime, key, now) || !onPage then CopyOutcome(None, lastKey, lastTime)
    else
      var d := DescriptionOf(keyData, key);
      if Trim(d) != "" && clipboardOk then CopyOutcome(Some(d), Some(key), stamp)
      else CopyOutcome(None, lastKey, lastTime)
  }

  /** A successful copy blocks the same key for the whole cooldown window after its stamp. */
  lemma RepeatInsideWindowIgnored(keyData: map<string, KeyEntry>, lastKey: Option<string>, lastTime: int,
                                  key: string, now: int, stamp: int, later: int,
                                  onPage: bool, clipboardOk: bool, stamp2: int)
    requires CopyStep(keyData, lastKey, lastTime, key, now, true, true, stamp).written.Some?
    requires stamp <= later < stamp + CopyCooldownMs
    ensures var o := CopyStep(keyData, lastKey, lastTime, key, now, true, true, stamp);
            CopyStep(keyData, o.lastKey, o.lastTime, key, later, onPage, clipboardOk, stamp2) == o.(written := None)
  {
  }

  /** A request for a key other than the last stamped one is decided as if there were no gate. */
  lemma OtherKeyUngated(keyData: map<string, KeyEntry>, lastKey: Option<string>, lastTime: int,
                        key: string, now: int, onPage: bool, clipboardOk: bool, stamp: int)
    requires lastKey != Some(key)
    ensures CopyStep(keyData, lastKey, lastTime, key, now, onPage, clipboardOk, stamp).written
            == if onPage && clipboardOk && Trim(DescriptionOf(keyData, key)) != ""
               then Some(DescriptionOf(keyData, key)) else None
  {
  }

  /** The page's session state. `dbReady` stands for a non-null database reference. */
  class Controller {
    var isHost: bool
    var connected: bool
    var currentPairCode: Option<string>
    var dbReady: bool
    /** The events path the host listener is attached to, if any. */
    var listening: Option<string>
    var keyData: map<string, KeyEntry>
    var lastCopiedKey: Option<string>
    var lastCopyTime: int

    /** Connected implies a code and a database reference; every code held is a four-digit code. */
    ghost predicate Valid()
      reads this
    {
      && (connected ==> currentPairCode.Some? && dbReady)
      && (currentPairCode.Some? ==> IsFourDigitCode(currentPairCode.value))
      && (listening.Some? ==> dbReady)
    }

    /** The page as loaded: no session, no stamp, and the stored key records. */
    constructor(stored: map<string, KeyEntry>)
      ensures Valid()
      ensures !isHost && !connected && currentPairCode == None && !dbReady && listening == None
      ensures keyData == stored && lastCopiedKey == None && lastCopyTime == 0
    {
      isHost := false;
      connected := false;
      currentPairCode := None;
      dbReady := false;
      listening := None;
      keyData := stored;
      lastCopiedKey := None;
      lastCopyTime := 0;
    }

    /**
     * `stopSession`: detaches the listener, removes the session node when
     * there is a database reference and a code (returned as `removed`),
     * and clears the session flags. The resulting flags do not depend on
     * the prior ones, so a second call changes nothing further.
     */
    method StopSession() returns (removed: Option<string>)
      requires Valid()
      modifies this
      ensures Valid()
      ensures currentPairCode == None && !isHost && !connected && listening == None
      ensures removed == if old(dbReady) && Truthy(old(currentPairCode)) then old(currentPairCode) else None
      ensures dbReady == old(dbReady) && keyData == old(keyData)
      ensures lastCopiedKey == old(lastCopiedKey) && lastCopyTime == old(lastCopyTime)
    {
      listening := None;
      removed := None;
      if dbReady && Truthy(currentPairCode) {
        removed := currentPairCode;
      }
      currentPairCode := None;
      isHost := false;
      connected := false;
    }

    /**
     * `startSession` with draw `n`: stops any session, takes the fresh
     * code `GenCode(n)` as host, and is connected only when the backend
     * set-up (`setupOk`) and the registration of the session node
     * (`registerOk`) both succeed; the listener is attached then too.
     * `removed` is the node the initial stop removes, as `StopSession`
     * reports it; `registered` is the node written, when set-up succeeded.
     */
    method StartSession(n: nat, setupOk: bool, registerOk: bool) returns (removed: Option<string>, registered: Option<string>)
      requires n < 9000
      requires Valid()
      modifies this
      ensures Valid()
      ensures currentPairCode == Some(GenCode(n)) && isHost
      ensures connected == (setupOk && registerOk)
      ensures dbReady == (old(dbReady) || setupOk)
      ensures removed == if old(dbReady) && Truthy(old(currentPairCode)) then old(currentPairCode) else None
      ensures registered == if setupOk then Some(GenCode(n)) else None
      ensures listening == if setupOk && registerOk then Some(GenCode(n) + "/events") else None
      ensures keyData == old(keyData)
      ensures lastCopiedKey == old(lastCopiedKey) && lastCopyTime == old(lastCopyTime)
    {
      removed := StopSession();
      var code := GenCode(n);
      currentPairCode := Some(code);
      isHost := true;
      connected := false;
      registered := None;
      if !setupOk {
        return;
      }
      dbReady := true;
      registered := Some(code);
      if !registerOk {
        return;
      }
      listening := Some(code + "/events");
      connected := true;
    }

    /**
     * The connect dialog's confirm: a rejected input changes nothing; an
     * accepted one becomes the client's code, and the page is connected
     * once the backend set-up succeeds (a failed set-up leaves `connected`
     * as it was). `updated` is the session node marked client-online,
     * which happens exactly when the set-up succeeds.
     */
    method ConfirmConnect(input: string, setupOk: bool) returns (accepted: bool, updated: Option<string>)
      requires Valid()
      modifies this
      ensures Valid()
      ensures accepted <==> IsFourDigitCode(Trim(input))
      ensures !accepted ==>
                && isHost == old(isHost) && connected == old(connected)
                && currentPairCode == old(currentPairCode) && dbReady == old(dbReady)
      ensures accepted ==>
                && currentPairCode == Some(Trim(input)) && !isHost
                && connected == (old(connected) || setupOk)
                && dbReady == (old(dbReady) || setupOk)
      ensures updated == if accepted && setupOk then Some(Trim(input)) else None
      ensures listening == old(listening) && keyData == old(keyData)
      ensures lastCopiedKey == old(lastCopiedKey) && lastCopyTime == old(lastCopyTime)
    {
      var code := AcceptedCode(input);
      updated := None;
      if code.None? {
        accepted := false;
        return;
      }
      accepted := true;
      currentPairCode := code;
      isHost := false;
      if !setupOk {
        return;
      }
      dbReady := true;
      updated := code;
      connected := true;
    }

    /**
     * `enviarSeleccion`: pushes a select event under the session's events
     * path only when there is a code, the page is connected and there is a
     * database reference.
     */
    method SendSelection(key: string, now: int) returns (pushed: Option<Push>)
      ensures pushed.Some? <==> Truthy(currentPairCode) && connected && dbReady
      ensures pushed.Some? ==>
                pushed.value == Push(currentPairCode.value + "/events", Payload("select", Some(key), now))
    {
      pushed := None;
      if !Truthy(currentPairCode) || !connected {
        return;
      }
      if dbReady {
        pushed := Some(Push(currentPairCode.value + "/events", Payload("select", Some(key), now)));
      }
    }

    /** The phone's stop key: drops the connection and the code, keeps `isHost`. */
    method StopSessionClientSide()
      requires Valid()
      modifies this
      ensures Valid()
      ensures !connected && currentPairCode == None
      ensures isHost == old(isHost) && dbReady == old(dbReady) && listening == old(listening)
      ensures keyData == old(keyData)
      ensures lastCopiedKey == old(lastCopiedKey) && lastCopyTime == old(lastCopyTime)
    {
      connected := false;
      currentPairCode := None;
    }

    /** `copiarDescripcionKey` on this page: the gate, the clipboard write and the stamp. */
    method Copy(key: string, now: int, onPage: bool, clipboardOk: bool, stamp: int)
      returns (written: Option<string>)
      requires Valid()
      modifies this
      ensures Valid()
      ensures var o := CopyStep(old(keyData), old(lastCopiedKey), old(lastCopyTime),
                                key, now, onPage, clipboardOk, stamp);
              written == o.written && lastCopiedKey == o.lastKey && lastCopyTime == o.lastTime
      ensures isHost == old(isHost) && connected == old(connected) && currentPairCode == old(currentPairCode)
      ensures dbReady == old(dbReady) && listening == old(listening) && keyData == old(keyData)
    {
      written := None;
      if Blocked(lastCopiedKey, lastCopyTime, key, now) {
        return;
      }
      if !onPage {
        return;
      }
      var d := DescriptionOf(keyData, key);
      if Trim(d) != "" && clipboardOk {
        written := Some(d);
        lastCopiedKey := Some(key);
        lastCopyTime := stamp;
      }
    }

    /**
     * A click on a desktop key: copies when the page is the connected host,
     * otherwise opens the connect dialog (`openDialog`) and copies nothing.
     */
    method KeyClick(num: string, now: int, onPage: bool, clipboardOk: bool, stamp: int)
      returns (openDialog: bool, written: Option<string>)
      requires Valid()
      modifies this
      ensures Valid()
      ensures openDialog <==> !(old(isHost) && old(connected))
      ensures openDialog ==>
                written == None && lastCopiedKey == old(lastCopiedKey) && lastCopyTime == old(lastCopyTime)
      ensures !openDialog ==>
                var o := CopyStep(old(keyData), old(lastCopiedKey), old(lastCopyTime),
                                  num, now, onPage, clipboardOk, stamp);
                written == o.written && lastCopiedKey == o.lastKey && lastCopyTime == o.lastTime
      ensures isHost == old(isHost) && connected == old(connected) && currentPairCode == old(currentPairCode)
      ensures dbReady == old(dbReady) && listening == old(listening) && keyData == old(keyData)
    {
      if isHost && connected {
        openDialog := false;
        written := Copy(num, now, onPage, clipboardOk, stamp);
      } else {
        openDialog := true;
        written := None;
      }
    }

    /**
     * An event added under the listened path: a select event with a key
     * runs the copy routine for that key; anything else is ignored.
     */
    method OnEventAdded(val: Option<Payload>, now: int, onPage: bool, clipboardOk: bool, stamp: int)
      returns (written: Option<string>)
      requires Valid()
      modifies this
      ensures Valid()
      ensures listening.None? || ListenedKey(val).None? ==>
                written == None && lastCopiedKey == old(lastCopiedKey) && lastCopyTime == old(lastCopyTime)
      ensures listening.Some? && ListenedKey(val).Some? ==>
                var o := CopyStep(old(keyData), old(lastCopiedKey), old(lastCopyTime),
                                  ListenedKey(val).value, now, onPage, clipboardOk, stamp);
                written == o.written && lastCopiedKey == o.lastKey && lastCopyTime == o.lastTime
      ensures isHost == old(isHost) && connected == old(connected) && currentPairCode == old(currentPairCode)
      ensures dbReady == old(dbReady) && listening == old(listening) && keyData == old(keyData)
    {
      written := None;
      var k := ListenedKey(val);
      if listening.Some? && k.Some? {
        written := Copy(k.value, now, onPage, clipboardOk, stamp);
      }
    }
  }

  /** A selection pushed by a connected client passes the host listener's filter with its key. */
  lemma PushedSelectionHeard(key: string, now: int)
    ensures ListenedKey(Some(Payload("select", Some(key), now))) == Some(key)
  {
  }

  /**
   * The pairing round: a host session started with draw `n`, a client that
   * types the host's code with a trailing newline, and a selection sent by
   * the client lands on the host's listened path.
   */
  method PairingRound(n: nat, key: string, now: int) returns (hostCode: string, pushed: Option<Push>)
    requires n < 9000
    ensures hostCode == GenCode(n)
    ensures pushed == Some(Push(hostCode + "/events", Payload("select", Some(key), now)))
  {
    var host := new Controller(map[]);
    var _, _ := host.StartSession(n, true, true);
    hostCode := host.currentPairCode.value;
    var phone := new Controller(map[]);
    assert AllBlank("\n");
    AcceptsPaddedCode([], hostCode, "\n");
    assert [] + hostCode + "\n" == hostCode + "\n";
    var accepted, updated := phone.ConfirmConnect(hostCode + "\n", true);
    assert host.listening == Some(hostCode + "/events");
    pushed := phone.SendSelection(key, now);
  }
}
