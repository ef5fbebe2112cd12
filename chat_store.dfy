/** The desktop client's chat store (apps/desktop/src/state/chat.ts): the
    fields the zustand store keeps, its actions, and the reducers its socket
    handlers run. HTTP answers are given to the actions as values; the
    socket calls the store makes are recorded in `outbox`. */
module ChatStore {
  import opened Common
  import opened Listing

  datatype ServerItem = ServerItem(id: string)
  datatype ChannelItem = ChannelItem(id: string)
  datatype MessageItem = MessageItem(id: string, channelId: string)

  /** What the store asks of its socket. */
  datatype SocketCall = ChannelJoin(socket: nat, channelId: string) | Disconnect(socket: nat)

  /** The answers of the HTTP API the actions wait for. */
  datatype Api = Api(channels: string -> seq<ChannelItem>, messages: string -> seq<MessageItem>)

  /** `msgs.reverse()`: the server pages newest first, the client shows
      oldest first. */
  function Reversed<T>(s: seq<T>): (r: seq<T>)
    ensures |r| == |s|
    ensures forall i :: 0 <= i < |s| ==> r[i] == s[|s| - 1 - i]
  {
    if s == [] then [] else Reversed(s[1..]) + [s[0]]
  }

  lemma {:induction false} ReversedTwice<T>(s: seq<T>)
    ensures Reversed(Reversed(s)) == s
  {
    var r := Reversed(Reversed(s));
    assert forall i :: 0 <= i < |s| ==> r[i] == s[i];
  }

  /** `filter((x) => x !== id)`. */
  function Without(s: seq<string>, x: string): (r: seq<string>)
    ensures forall y :: y in r <==> y in s && y != x
    ensures |r| <= |s|
    ensures Distinct(s) ==> Distinct(r)
  {
    if s == [] then []
    else
      var rest := Without(s[1..], x);
      if s[0] == x then rest
      else
        assert Distinct(s) ==> Distinct(s[1..]) && s[0] !in rest by {
          assert forall i, j :: 0 <= i < j < |s[1..]| ==> s[1..][i] == s[i + 1] && s[1..][j] == s[j + 1];
          assert forall j :: 0 <= j < |s[1..]| ==> s[1..][j] == s[j + 1];
        }
        DistinctCons(s[0], rest);
        [s[0]] + rest
  }

  lemma DistinctCons(x: string, t: seq<string>)
    ensures x !in t && Distinct(t) ==> Distinct([x] + t)
  {
    assert forall j :: 1 <= j < |[x] + t| ==> ([x] + t)[j] == t[j - 1];
  }

  /** Filtering out a name that is not there changes nothing. */
  lemma {:induction false} WithoutAbsent(s: seq<string>, x: string)
    requires x !in s
    ensures Without(s, x) == s
    decreases |s|
  {
    if s != [] {
      WithoutAbsent(s[1..], x);
      assert s == [s[0]] + s[1..];
    }
  }

  /** A typing start for someone not yet listed, then the matching stop,
      give the list back as it was. */
  lemma {:induction false} StartThenStop(s: seq<string>, x: string)
    requires x !in s
    ensures Without(s + [x], x) == s
    decreases |s|
  {
    if s == [] {
      assert [x][1..] == [];
    } else {
      assert (s + [x])[1..] == s[1..] + [x];
      StartThenStop(s[1..], x);
      assert s == [s[0]] + s[1..];
    }
  }

  class Chat {
    var socket: Option<nat>
    var servers: seq<ServerItem>
    var channels: seq<ChannelItem>
    var messages: seq<MessageItem>
    var activeServerId: Option<string>
    var activeChannelId: Option<string>
    var typingUserIds: seq<string>
    var outbox: seq<SocketCall>

    /** The typing list never names anyone twice. */
    predicate Valid()
      reads this
    {
      Distinct(typingUserIds)
    }

    /** The initial state. */
    constructor ()
      ensures Valid()
      ensures socket.None? && servers == [] && channels == [] && messages == []
      ensures activeServerId.None? && activeChannelId.None? && typingUserIds == [] && outbox == []
    {
      socket := None;
      servers := [];
      channels := [];
      messages := [];
      activeServerId := None;
      activeChannelId := None;
      typingUserIds := [];
      outbox := [];
    }

    /** `selectChannel`: the channel becomes active with its messages
        oldest first, the typing list is cleared, and a connected socket
        joins the channel's room. */
    method SelectChannel(api: Api, channelId: string)
      requires Valid()
      modifies this
      ensures Valid()
      ensures activeChannelId == Some(channelId) && messages == Reversed(api.messages(channelId)) && typingUserIds == []
      ensures outbox == old(outbox) + (if socket.Some? then [ChannelJoin(socket.value, channelId)] else [])
      ensures socket == old(socket) && servers == old(servers) && channels == old(channels)
      ensures activeServerId == old(activeServerId)
    {
      activeChannelId := Some(channelId);
      messages := Reversed(api.messages(channelId));
      typingUserIds := [];
      if socket.Some? {
        outbox := outbox + [ChannelJoin(socket.value, channelId)];
      }
    }

    /** `selectServer`: the server becomes active with its channels; the
        messages and the active channel are reset before its first channel,
        if any, is selected. The typing list is left as it was when the
        server has no channel. */
    method SelectServer(api: Api, serverId: string)
      requires Valid()
      modifies this
      ensures Valid()
      ensures activeServerId == Some(serverId) && channels == api.channels(serverId)
      ensures socket == old(socket) && servers == old(servers)
      ensures channels == [] ==>
        && activeChannelId.None? && messages == [] && typingUserIds == old(typingUserIds) && outbox == old(outbox)
      ensures channels != [] ==>
        && activeChannelId == Some(channels[0].id)
        && messages == Reversed(api.messages(channels[0].id))
        && typingUserIds == []
        && outbox == old(outbox) + (if socket.Some? then [ChannelJoin(socket.value, channels[0].id)] else [])
    {
      channels := api.channels(serverId);
      activeServerId := Some(serverId);
      messages := [];
      activeChannelId := None;
      if |channels| > 0 {
        SelectChannel(api, channels[0].id);
      }
    }

    /** `loadServers`: the list is replaced, and the first server is
        selected, as `selectServer` does, when none is active yet (an empty
        id counts as none). */
    method LoadServers(api: Api, fetched: seq<ServerItem>)
      requires Valid()
      modifies this
      ensures Valid()
      ensures servers == fetched && socket == old(socket)
      ensures (old(activeServerId).Some? && old(activeServerId).value != "") || fetched == [] ==>
        && activeServerId == old(activeServerId) && activeChannelId == old(activeChannelId)
        && channels == old(channels) && messages == old(messages)
        && typingUserIds == old(typingUserIds) && outbox == old(outbox)
      ensures (old(activeServerId).None? || old(activeServerId).value == "") && fetched != [] ==>
        && activeServerId == Some(fetched[0].id) && channels == api.channels(fetched[0].id)
        && (channels == [] ==>
              && activeChannelId.None? && messages == [] && typingUserIds == old(typingUserIds) && outbox == old(outbox))
        && (channels != [] ==>
              && activeChannelId == Some(channels[0].id)
              && messages == Reversed(api.messages(channels[0].id))
              && typingUserIds == []
              && outbox == old(outbox) + (if socket.Some? then [ChannelJoin(socket.value, channels[0].id)] else []))
    {
      servers := fetched;
      if (activeServerId.None? || activeServerId.value == "") && |fetched| > 0 {
        SelectServer(api, fetched[0].id);
      }
    }

    /** `createServer`: the new server goes first in the list. */
    method CreateServer(created: ServerItem)
      modifies this`servers
      ensures servers == [created] + old(servers)
    {
      servers := [created] + servers;
    }

    /** `send`: with an active channel, the message is posted to it over
        HTTP (the result comes back through `message_created`); without
        one, nothing happens. Returns the channel posted to. */
    method Send(content: string) returns (postedTo: Option<string>)
      ensures postedTo.Some? <==> activeChannelId.Some? && activeChannelId.value != ""
      ensures postedTo.Some? ==> postedTo == activeChannelId
    {
      if activeChannelId.None? || activeChannelId.value == "" {
        return None;
      }
      return activeChannelId;
    }

    /** `connectWs`: does nothing when a socket exists; otherwise the new
        socket is kept. */
    method ConnectWs(made: nat)
      modifies this`socket
      ensures old(socket).Some? ==> socket == old(socket)
      ensures old(socket).None? ==> socket == Some(made)
    {
      if socket.Some? {
        return;
      }
      socket := Some(made);
    }

    /** `disconnectWs`: the socket, if any, is closed; the store forgets it
        and clears the typing list. */
    method DisconnectWs()
      requires Valid()
      modifies this`socket, this`typingUserIds, this`outbox
      ensures Valid()
      ensures socket.None? && typingUserIds == []
      ensures outbox == old(outbox) + (if old(socket).Some? then [Disconnect(old(socket).value)] else [])
    {
      if socket.Some? {
        outbox := outbox + [Disconnect(socket.value)];
      }
      socket := None;
      typingUserIds := [];
    }

    /** The `message_created` handler: a message of the active channel is
        appended; any other is ignored. */
    method OnMessageCreated(msg: MessageItem)
      modifies this`messages
      ensures Some(msg.channelId) == activeChannelId ==> messages == old(messages) + [msg]
      ensures Some(msg.channelId) != activeChannelId ==> messages == old(messages)
    {
      if Some(msg.channelId) != activeChannelId {
        return;
      }
      messages := messages + [msg];
    }

    /** The `typing_started` handler: for the active channel, the user is
        added at the end unless already listed. */
    method OnTypingStarted(channelId: string, userId: string)
      requires Valid()
      modifies this`typingUserIds
      ensures Valid()
      ensures Some(channelId) != activeChannelId || userId in old(typingUserIds) ==> typingUserIds == old(typingUserIds)
      ensures Some(channelId) == activeChannelId && userId !in old(typingUserIds) ==>
        typingUserIds == old(typingUserIds) + [userId]
    {
      if Some(channelId) != activeChannelId {
        return;
      }
      if userId !in typingUserIds {
        typingUserIds := typingUserIds + [userId];
      }
    }

    /** The `typing_stopped` handler: for the active channel, the user is
        removed. */
    method OnTypingStopped(channelId: string, userId: string)
      requires Valid()
      modifies this`typingUserIds
      ensures Valid()
      ensures Some(channelId) != activeChannelId ==> typingUserIds == old(typingUserIds)
      ensures Some(channelId) == activeChannelId ==> typingUserIds == Without(old(typingUserIds), userId)
    {
      if Some(channelId) != activeChannelId {
        return;
      }
      typingUserIds := Without(typingUserIds, userId);
    }
  }
}
