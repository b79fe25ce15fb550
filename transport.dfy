/**
 * The browser objects the client holds but does not implement: an
 * RTCPeerConnection is an opaque handle, an RTCDataChannel is reduced to its
 * readyState, and the asynchronous WebRTC calls (createOffer,
 * setLocalDescription, setRemoteDescription, createAnswer) are given to the
 * model as an outcome: a value, or the error they rejected with.
 */
module Transport {
  import opened Common

  /** An RTCPeerConnection, known only by identity. */
  datatype Handle = Handle(n: nat)

  /** An RTCSessionDescription (offer or answer). */
  datatype Desc = Desc(kind: string, sdp: string)

  /** RTCDataChannel.readyState. */
  datatype ReadyState = Connecting | Open | Closing | Closed

  datatype Channel = Channel(readyState: ReadyState)

  /** RTCPeerConnection.connectionState. */
  datatype ConnectionState = New | Linking | Connected | Disconnected | Failed | Shut

  /** An error a WebRTC promise rejects with (a DOMException or an Error). */
  datatype RtcError = RtcError(name: string, message: string)

  /** What an awaited WebRTC call produced: its value, or the error it threw. */
  datatype Outcome<T> = Done(value: T) | Threw(error: RtcError)

  /** `channel && channel.readyState === 'open'` for the channel registered under `id`. */
  predicate IsOpen(channels: map<string, Channel>, id: string)
  {
    id in channels && channels[id].readyState == Open
  }

  /** Error.prototype.toString: the name, the message, or both joined by ": ". */
  function ErrorText(e: RtcError): string
  {
    if e.name == "" then e.message
    else if e.message == "" then e.name
    else e.name + ": " + e.message
  }

  /**
   * The test that decides whether a failed negotiation clears the saved offer:
   * `error.name === 'InvalidModificationError' || error.toString().includes('SDP')`.
   */
  predicate IsSdpError(e: RtcError)
  {
    e.name == "InvalidModificationError" || Contains(ErrorText(e), "SDP")
  }

  /**
   * The test reads the same as looking for "SDP" in the name or in the message
   * separately: the ": " that toString inserts cannot be part of an occurrence.
   */
  lemma IsSdpErrorByParts(e: RtcError)
    ensures IsSdpError(e) <==>
              e.name == "InvalidModificationError" || Contains(e.name, "SDP") || Contains(e.message, "SDP")
  {
    if e.name != "" && e.message != "" {
      ContainsAcrossSeparator(e.name, e.message);
    }
  }

  /** "SDP" occurs in `a + ": " + b` exactly when it occurs in `a` or in `b`. */
  lemma ContainsAcrossSeparator(a: string, b: string)
    ensures Contains(a + ": " + b, "SDP") <==> Contains(a, "SDP") || Contains(b, "SDP")
  {
    var s := a + ": " + b;
    if Contains(a, "SDP") {
      var i :| 0 <= i <= |a| - 3 && OccursAt(a, "SDP", i);
      assert s[i..i + 3] == a[i..i + 3];
      assert OccursAt(s, "SDP", i);
    }
    if Contains(b, "SDP") {
      var i :| 0 <= i <= |b| - 3 && OccursAt(b, "SDP", i);
      var j := |a| + 2 + i;
      assert s[j..j + 3] == b[i..i + 3];
      assert OccursAt(s, "SDP", j);
    }
    if Contains(s, "SDP") {
      var i :| 0 <= i <= |s| - 3 && OccursAt(s, "SDP", i);
      if i + 3 <= |a| {
        assert a[i..i + 3] == s[i..i + 3];
        assert OccursAt(a, "SDP", i);
      } else if i >= |a| + 2 {
        var k := i - |a| - 2;
        assert b[k..k + 3] == s[i..i + 3];
        assert OccursAt(b, "SDP", k);
      } else {
        SeparatorBlocks(a, b, i);
        assert false;
      }
    }
  }

  /** No occurrence of "SDP" overlaps the ": " between the two parts. */
  lemma SeparatorBlocks(a: string, b: string, i: int)
    requires 0 <= i <= |a + ": " + b| - 3 && |a| < i + 3 && i < |a| + 2
    ensures !OccursAt(a + ": " + b, "SDP", i)
  {
    var s := a + ": " + b;
    var j := if i >= |a| then i else |a|;
    assert s[j] == ':' || s[j] == ' ';
    assert s[i..i + 3][j - i] == s[j];
  }
}
