/**
 The glue in frontend/src/components/ChatContainer.jsx: the effect that loads
 a conversation and subscribes to live messages (with its cleanup), the
 delete handler, and which messages offer a delete control.
 React runs the effect on mount and again whenever `selectedUser?._id`
 changes, running the previous run's cleanup first; on unmount it runs the
 cleanup alone. The container is modelled as a class that remembers whether
 the effect is active and for which `selectedUser?._id` it last ran.
 */
module ChatContainer {
  import opened ChatTypes
  import opened ChatStore

  /** The effect's dependency `selectedUser?._id`. */
  function DependencyKey(selected: Option<User>): Option<UserId>
  {
    if selected.Some? then Some(selected.value.id) else None
  }

  /** The listeners one effect run leaves on the socket: one for the peer
      selected when it ran, none without a peer. */
  function ListenersFor(selected: Option<User>): seq<UserId>
  {
    if selected.Some? then [selected.value.id] else []
  }

  /** `message.senderId === authUser._id` */
  predicate IsOwnMessage(message: Message, authUser: User)
  {
    message.senderId == authUser.id
  }

  /** The ids the rendered list offers a delete control for, in list order:
      those of the signed-in user's own messages. */
  function DeleteTargets(messages: seq<Message>, authUser: User): (ids: seq<string>)
    ensures |ids| <= |messages|
    ensures forall id :: id in ids <==>
              exists m :: m in messages && IsOwnMessage(m, authUser) && m.id == id
  {
    if messages == [] then []
    else
      var rest := DeleteTargets(messages[1..], authUser);
      assert forall m :: m in messages <==> m == messages[0] || m in messages[1..];
      if IsOwnMessage(messages[0], authUser) then [messages[0].id] + rest else rest
  }

  /** What the message pane shows: the skeleton while loading, else the
      list, else the empty-conversation prompt. */
  datatype Pane = Skeleton | MessageList(messages: seq<Message>) | EmptyPrompt

  function MessagePane(isMessagesLoading: bool, messages: seq<Message>): Pane
  {
    if isMessagesLoading then Skeleton
    else if |messages| > 0 then MessageList(messages)
    else EmptyPrompt
  }

  /** The ids whose delete control is on screen: those of the listed
      messages that are the user's own, and none while the skeleton or the
      empty-conversation prompt is shown. */
  function DeleteControls(isMessagesLoading: bool, messages: seq<Message>, authUser: User): (ids: seq<string>)
    ensures isMessagesLoading || messages == [] ==> ids == []
    ensures !isMessagesLoading ==>
              forall id :: id in ids <==>
                exists m :: m in messages && IsOwnMessage(m, authUser) && m.id == id
    ensures |ids| <= |messages|
  {
    match MessagePane(isMessagesLoading, messages)
    case MessageList(shown) => DeleteTargets(shown, authUser)
    case _ => []
  }

  class Container {
    const store: Store
    const socket: LiveSocket
    const authUser: User
    /** Whether an effect run is active (its cleanup has not run yet). */
    var active: bool
    /** `selectedUser` as the active effect run saw it. */
    var lastSelected: Option<User>

    /** While the container is mounted the socket carries exactly the
        listener of the last effect run, and none once it is unmounted. */
    ghost predicate Valid()
      reads this, socket
    {
      socket.listeners == (if active then ListenersFor(lastSelected) else [])
    }

    constructor (store: Store, socket: LiveSocket, authUser: User)
      requires socket.listeners == []
      ensures this.store == store && this.socket == socket && this.authUser == authUser
      ensures !active && Valid()
    {
      this.store := store;
      this.socket := socket;
      this.authUser := authUser;
      active := false;
      lastSelected := None;
    }

    /** One run of the effect body: the history is requested only for a
        selected user with a (truthy) `_id`; then the store subscribes. */
    method RunEffect() returns (requested: Option<UserId>)
      requires socket.listeners == []
      modifies this, store`isMessagesLoading, socket
      ensures active && lastSelected == store.selectedUser
      ensures requested.Some? <==> store.selectedUser.Some? && store.selectedUser.value.id != ""
      ensures requested.Some? ==> requested.value == store.selectedUser.value.id && store.isMessagesLoading
      ensures requested.None? ==> store.isMessagesLoading == old(store.isMessagesLoading)
      ensures socket.listeners == ListenersFor(store.selectedUser)
      ensures Valid()
    {
      requested := None;
      var selected := store.selectedUser;
      if selected.Some? && selected.value.id != "" {
        var id := store.BeginGetMessages(selected.value.id);
        requested := Some(id);
      }
      store.SubscribeToMessages(socket);
      active := true;
      lastSelected := selected;
    }

    /** The cleanup of the active run: `unsubscribeFromMessages`. */
    method Cleanup()
      requires active
      modifies this, socket
      ensures !active && socket.listeners == [] && Valid()
    {
      store.UnsubscribeFromMessages(socket);
      active := false;
    }

    /** Mounting runs the effect once. */
    method Mount() returns (requested: Option<UserId>)
      requires Valid() && !active
      modifies this, store`isMessagesLoading, socket
      ensures Valid() && active && lastSelected == store.selectedUser
      ensures socket.listeners == ListenersFor(store.selectedUser) && |socket.listeners| <= 1
      ensures requested.Some? <==> store.selectedUser.Some? && store.selectedUser.value.id != ""
      ensures requested.Some? ==> requested.value == store.selectedUser.value.id && store.isMessagesLoading
      ensures requested.None? ==> store.isMessagesLoading == old(store.isMessagesLoading)
    {
      requested := RunEffect();
    }

    /** A render after the store changed: when `selectedUser?._id` differs
        from the active run's, the old subscription is torn down BEFORE the
        new run subscribes, so at most one listener is ever registered and it
        is the new peer's. */
    method Rerender() returns (requested: Option<UserId>)
      requires Valid() && active
      modifies this, store`isMessagesLoading, socket
      ensures Valid() && active && |socket.listeners| <= 1
      ensures DependencyKey(store.selectedUser) == DependencyKey(old(lastSelected)) ==>
                requested.None? && socket.listeners == old(socket.listeners)
                && lastSelected == old(lastSelected)
                && store.isMessagesLoading == old(store.isMessagesLoading)
      ensures DependencyKey(store.selectedUser) != DependencyKey(old(lastSelected)) ==>
                socket.listeners == ListenersFor(store.selectedUser)
                && lastSelected == store.selectedUser
                && (requested.Some? <==> store.selectedUser.Some? && store.selectedUser.value.id != "")
                && (requested.Some? ==>
                      requested.value == store.selectedUser.value.id && store.isMessagesLoading)
                && (requested.None? ==> store.isMessagesLoading == old(store.isMessagesLoading))
    {
      requested := None;
      if DependencyKey(store.selectedUser) != DependencyKey(lastSelected) {
        Cleanup();
        requested := RunEffect();
      }
    }

    /** Choosing a contact in the sidebar (`setSelectedUser(user)`) and the
        render that follows. */
    method SelectPeer(user: User) returns (requested: Option<UserId>)
      requires Valid() && active
      modifies this, store`selectedUser, store`isMessagesLoading, socket
      ensures store.selectedUser == Some(user)
      ensures Valid() && |socket.listeners| <= 1
      ensures socket.listeners == [user.id]
      ensures DependencyKey(old(lastSelected)) == Some(user.id) ==>
                requested.None? && store.isMessagesLoading == old(store.isMessagesLoading)
                && lastSelected == old(lastSelected)
      ensures DependencyKey(old(lastSelected)) != Some(user.id) ==>
                lastSelected == Some(user)
                && (requested.Some? <==> user.id != "")
                && (requested.Some? ==> requested.value == user.id && store.isMessagesLoading)
                && (requested.None? ==> store.isMessagesLoading == old(store.isMessagesLoading))
    {
      store.SetSelectedUser(Some(user));
      requested := Rerender();
    }

    /** Unmounting runs the active run's cleanup. */
    method Unmount()
      requires Valid() && active
      modifies this, socket
      ensures Valid() && !active && socket.listeners == []
    {
      Cleanup();
    }

    /** `handleDelete(id)` after `await deleteMessage(id)` settled: only a
        resolved remote delete is followed by `removeMessage` with the same
        id; a rejection is caught and the list is left unchanged. */
    method HandleDelete(id: string, remote: Http<()>)
      modifies store`messages
      ensures remote.Ok? ==> store.messages == RemoveById(old(store.messages), id)
      ensures remote.Failed? ==> store.messages == old(store.messages)
    {
      if remote.Ok? {
        store.RemoveMessage(id);
      }
    }
  }

  /** With the container keeping at most one listener, a live message from
      the selected peer is shown exactly once, and one from anyone else is
      not shown. */
  lemma AtMostOneAppend(selected: Option<User>, event: Message)
    ensures CountOf(ListenersFor(selected), event.senderId)
            == (if selected.Some? && selected.value.id == event.senderId then 1 else 0)
  {
    if selected.Some? {
      assert ListenersFor(selected)[..0] == [];
    }
  }

  /** The user opens X, then switches to Y. A live message from X arriving
      afterwards is not shown; one from Y is shown once. */
  method SwitchPeerScenario() returns (afterOldPeer: seq<Message>, afterNewPeer: seq<Message>)
    ensures afterOldPeer == []
    ensures |afterNewPeer| == 1 && afterNewPeer[0].id == "from-y"
  {
    var store := new Store(Plain());
    var socket := new LiveSocket();
    var container := new Container(store, socket, User("me", "Me", ""));
    store.SetSelectedUser(Some(User("X", "Xia", "")));
    var _ := container.Mount();
    var _ := container.SelectPeer(User("Y", "Yan", ""));
    store.ReceiveNewMessage(socket, Message("from-x", "X", "me", Str("a"), "", "t1"));
    afterOldPeer := store.messages;
    store.ReceiveNewMessage(socket, Message("from-y", "Y", "me", Str("b"), "", "t2"));
    afterNewPeer := store.messages;
  }
}
