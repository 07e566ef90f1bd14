/**
 The loop-defense fingerprint end to end: the edge hashes what it rendered, sends
 it as AppleScript, Messages stores what the script evaluates to, and the sensor
 hashes the row it finds.
 */
module Fingerprints {
  import opened Prelude
  import opened CanonicalText
  import AppleScript
  import Notification
  import SensorPoll

  /** The row Messages writes for a sent text: as text, or as a body that decodes to it. */
  predicate Delivers(row: SensorPoll.Row, text: string, reader: SensorPoll.Reader) {
    && row.isFromMe
    && (row.text == Some(text)
        || (!SensorPoll.HasText(row) && row.body.Some? && reader.decode(row.body.value) == SensorPoll.Decoded(text)))
  }

  /** The sensor's hash of its own message is the hash the edge reported. */
  lemma FingerprintsMeet(
      n: Notification.Notification, target: string, row: SensorPoll.Row, paired: set<string>, reader: SensorPoll.Reader)
    requires NfcCommutesWithFold(reader.platform)
    requires Notification.Render(n) != ""
    requires var sent := AppleScript.ReadSend(AppleScript.SendCommand(target, Notification.Render(n)));
      sent.Send? && Delivers(row, sent.text, reader)
    ensures SensorPoll.EventOf(row, paired, reader).ownHash
         == Some(CanonicalHash(Notification.Render(n), reader.platform))
  {
    var text := Notification.Render(n);
    AppleScript.SendCommandIsOneSend(target, text);
    FoldShape(text);
    assert SensorPoll.CapContent(Fold(text)) == Fold(text);
    HashOfFolded(text, reader.platform);
  }
}
