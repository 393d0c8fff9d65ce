/**
 A Channel's interest set and the epoll poller that mirrors it into the kernel.

 `kernel` is what the kernel holds for the poller's epoll instance.  Each
 epoll_ctl is a call of `EPollPoller.Update`, whose precondition is that the
 kernel accepts it: no ADD of a registered descriptor, no MOD or DEL of an
 absent one.
 */
module Polling {
  // events_: kReadEvent is EPOLLIN|EPOLLPRI, kWriteEvent is EPOLLOUT.
  datatype Mask = Mask(read: bool, write: bool) {
    predicate IsNone() { !read && !write }
  }

  const NONE_EVENT := Mask(false, false)

  // Channel::index_, the poller's bookkeeping: -1, 1 and 2 in the source.
  datatype Index = New | Added | Deleted

  datatype Operation = CtlAdd | CtlMod | CtlDel

  // The bookkeeping after EPollPoller::updateChannel with interest `events`.
  function IndexAfterUpdate(index: Index, events: Mask): Index {
    if index.Added? && events.IsNone() then Deleted else Added
  }

  class Channel {
    const fd: int
    const poller: EPollPoller
    var events: Mask
    var index: Index

    // Only one channel at a time may stand for a descriptor.
    constructor (poller: EPollPoller, fd: int)
      requires poller.Agrees()
      requires forall c :: c in poller.live ==> c.fd != fd
      modifies poller
      ensures poller.Agrees() && poller.live == old(poller.live) + {this}
      ensures poller.channels == old(poller.channels) && poller.kernel == old(poller.kernel)
      ensures this.fd == fd && this.poller == poller && events == NONE_EVENT && index == New
    {
      this.fd, this.poller := fd, poller;
      events, index := NONE_EVENT, New;
      new;
      poller.live := poller.live + {this};
    }

    method SetEvents(events: Mask)
      requires poller.Agrees() && this in poller.live
      modifies this, poller
      ensures poller.Agrees() && poller.live == old(poller.live)
      ensures this.events == events && index == IndexAfterUpdate(old(index), events)
      ensures forall f :: f != fd ==> (f in poller.kernel <==> f in old(poller.kernel))
      ensures forall f :: f != fd && f in poller.kernel ==> poller.kernel[f] == old(poller.kernel)[f]
    {
      this.events := events;
      poller.UpdateChannel(this);
    }

    method EnableReading()
      requires poller.Agrees() && this in poller.live
      modifies this, poller
      ensures poller.Agrees() && poller.live == old(poller.live)
      ensures events == old(events).(read := true) && index == Added
    {
      SetEvents(events.(read := true));
    }

    method EnableWriting()
      requires poller.Agrees() && this in poller.live
      modifies this, poller
      ensures poller.Agrees() && poller.live == old(poller.live)
      ensures events == old(events).(write := true) && index == Added
    {
      SetEvents(events.(write := true));
    }

    method DisableWriting()
      requires poller.Agrees() && this in poller.live
      modifies this, poller
      ensures poller.Agrees() && poller.live == old(poller.live)
      ensures events == old(events).(write := false) && index == IndexAfterUpdate(old(index), events)
    {
      SetEvents(events.(write := false));
    }

    method DisableAll()
      requires poller.Agrees() && this in poller.live
      modifies this, poller
      ensures poller.Agrees() && poller.live == old(poller.live)
      ensures events == NONE_EVENT && index == IndexAfterUpdate(old(index), NONE_EVENT)
    {
      SetEvents(NONE_EVENT);
    }

    method Remove()
      requires poller.Agrees() && this in poller.live
      modifies this, poller
      ensures poller.Agrees() && poller.live == old(poller.live)
      ensures index == New && events == old(events)
    {
      poller.RemoveChannel(this);
    }
  }

  class EPollPoller {
    var channels: map<int, Channel>
    // The kernel's interest list: descriptor -> (registered mask, event.data.ptr).
    var kernel: map<int, (Mask, Channel)>
    // The channels that exist and belong to this poller, one per descriptor.
    ghost var live: set<Channel>

    ghost predicate OnePerDescriptor()
      reads this
    {
      && (forall c :: c in live ==> c.poller == this)
      && (forall c, d :: c in live && d in live && c.fd == d.fd ==> c == d)
    }

    // The descriptor map holds exactly the live channels that are not New.
    ghost predicate MapAgrees()
      reads this, live
    {
      && (forall fd :: fd in channels ==> channels[fd] in live && channels[fd].fd == fd && !channels[fd].index.New?)
      && (forall c :: c in live && !c.index.New? ==> c.fd in channels && channels[c.fd] == c)
    }

    // The kernel holds exactly the channels that are Added, each under its own interest mask.
    ghost predicate KernelAgrees()
      reads this, live
    {
      && (forall fd :: fd in kernel ==> fd in channels && channels[fd] in live && channels[fd].index.Added?)
      && (forall c :: c in live && c.index.Added? ==> c.fd in kernel && kernel[c.fd] == (c.events, c))
      && (forall c :: c in live && c.index.Deleted? ==> c.events.IsNone())
    }

    ghost predicate Agrees()
      reads this, live
    {
      OnePerDescriptor() && MapAgrees() && KernelAgrees()
    }

    // Agreement up to the interest mask of `c`, which has just been changed.
    ghost predicate AgreesExceptMaskOf(c: Channel)
      reads this, live
    {
      && c in live && OnePerDescriptor() && MapAgrees()
      && (forall fd :: fd in kernel ==> fd in channels && channels[fd] in live && channels[fd].index.Added?)
      && (forall d :: d in live && d.index.Added? ==> d.fd in kernel && kernel[d.fd].1 == d)
      && (forall d :: d in live && d.index.Added? && d != c ==> kernel[d.fd].0 == d.events)
      && (forall d :: d in live && d.index.Deleted? && d != c ==> d.events.IsNone())
    }

    constructor ()
      ensures Agrees() && live == {} && channels == map[] && kernel == map[]
    {
      channels, kernel, live := map[], map[], {};
    }

    // epoll_ctl; the precondition is the kernel's own condition for success.
    method Update(operation: Operation, channel: Channel)
      requires operation.CtlAdd? <==> channel.fd !in kernel
      modifies this`kernel
      ensures operation.CtlDel? ==> kernel == old(kernel) - {channel.fd}
      ensures !operation.CtlDel? ==> kernel == old(kernel)[channel.fd := (channel.events, channel)]
    {
      if operation.CtlDel? {
        kernel := kernel - {channel.fd};
      } else {
        kernel := kernel[channel.fd := (channel.events, channel)];
      }
    }

    method UpdateChannel(channel: Channel)
      requires AgreesExceptMaskOf(channel)
      modifies this`channels, this`kernel, channel`index
      ensures Agrees()
      ensures channel.index == IndexAfterUpdate(old(channel.index), channel.events)
      ensures forall f :: f != channel.fd ==> (f in kernel <==> f in old(kernel))
      ensures forall f :: f != channel.fd && f in kernel ==> kernel[f] == old(kernel)[f]
    {
      var fd := channel.fd;
      if channel.index.New? || channel.index.Deleted? {
        if channel.index.New? {
          channels := channels[fd := channel];
        } else {
          // The two assertions of the source.
          assert fd in channels;
          assert channels[fd] == channel;
        }
        channel.index := Added;
        Update(CtlAdd, channel);
      } else if channel.events.IsNone() {
        Update(CtlDel, channel);
        channel.index := Deleted;
      } else {
        Update(CtlMod, channel);
      }
      assert OnePerDescriptor() && MapAgrees();
    }

    method RemoveChannel(channel: Channel)
      requires Agrees() && channel in live
      modifies this`channels, this`kernel, channel`index
      ensures Agrees() && channel.index == New
      ensures channels == old(channels) - {channel.fd} && kernel == old(kernel) - {channel.fd}
    {
      channels := channels - {channel.fd};
      if channel.index.Added? {
        Update(CtlDel, channel);
      }
      channel.index := New;
    }

    // The channel is destroyed; its descriptor may then be used again.
    ghost method Forget(channel: Channel)
      requires Agrees() && channel in live && channel.index.New?
      modifies this`live
      ensures Agrees() && live == old(live) - {channel}
    {
      live := live - {channel};
    }
  }
}
