/** The handler's two relay loops as they are written, each run by one process alone. */
module Relay {
  import opened Bytes
  import opened Streams

  const BUFFER := 16384

  /**
   The loop of `handleDownload`: exactly `total` bytes are asked for. What reaches the client
   is a prefix of what the helper sent, and all `total` bytes unless the loop broke.
   */
  method RelayDownload(helper: InStream, client: OutStream, total: nat) returns (received: nat, ghost passed: nat)
    requires total < U32_LIMIT
    modifies helper, client
    ensures received <= passed <= |old(helper.unread)| && passed <= total
    ensures client.written == old(client.written) + old(helper.unread)[..passed]
    ensures received == total <==> passed == total
    ensures helper.reliable && client.reliable && total <= |old(helper.unread)| ==> received == total
  {
    received, passed := 0, 0;
    ghost var all := helper.unread;
    while received < total
      invariant received == passed <= total && received <= |all|
      invariant helper.unread == all[received..]
      invariant client.written == old(client.written) + all[..received]
    {
      var toRead := Min(total - received, BUFFER);
      var n, buffer := helper.Read(toRead);
      if n <= 0 { return; }
      assert buffer == all[received..received + n];
      var r, sent := WriteAll(client, buffer);
      assert all[..received] + buffer[..sent] == all[..received + sent];
      passed := received + sent;
      if r < 0 { return; }
      received := received + n;
    }
  }

  /** The loop of `handleUpload`: everything until end of file. */
  method RelayUpload(client: InStream, helper: OutStream) returns (ghost passed: nat)
    modifies client, helper
    ensures passed <= |old(client.unread)|
    ensures helper.written == old(helper.written) + old(client.unread)[..passed]
    ensures client.reliable && helper.reliable ==> helper.written == old(helper.written) + old(client.unread)
  {
    passed := 0;
    ghost var all := client.unread;
    while true
      invariant passed <= |all|
      invariant client.unread == all[passed..]
      invariant helper.written == old(helper.written) + all[..passed]
      decreases |client.unread|
    {
      var n, buffer := client.Read(BUFFER);
      if n <= 0 {
        assert n == 0 ==> all[..passed] == all;
        return;
      }
      assert buffer == all[passed..passed + n];
      var r, sent := WriteAll(helper, buffer);
      assert all[..passed] + buffer[..sent] == all[..passed + sent];
      passed := passed + sent;
      if r < 0 { return; }
    }
  }
}
