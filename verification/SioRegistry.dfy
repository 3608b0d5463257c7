/** The registry of open serial ports: a singly linked list on the heap, searched from the front,
    appended at the tail and unlinked in place. */
module SioRegistry {
  import opened Options

  /** One entry as a value; the name is unset between allocation and the end of sio_open. */
  datatype Port = Port(fd: int, name: Option<string>)

  const ERR_PORT_OPEN := 0
  const OK_PORT_CLOSE := 0
  const ERR_PORT_CLOSE := -1

  // ----- The list as a sequence

  predicate HasFd(ports: seq<Port>, fd: int) {
    exists i :: 0 <= i < |ports| && ports[i].fd == fd
  }

  predicate UniqueFds(ports: seq<Port>) {
    forall i, j :: 0 <= i < j < |ports| ==> ports[i].fd != ports[j].fd
  }

  function Followed(ports: seq<Port>, fd: int): seq<Port> {
    if HasFd(ports, fd) then ports else ports + [Port(fd, None)]
  }

  /** Without the entries of a descriptor, the others in their order. */
  function Trimmed(ports: seq<Port>, fd: int): seq<Port> {
    if ports == [] then []
    else (if ports[0].fd == fd then [] else [ports[0]]) + Trimmed(ports[1..], fd)
  }

  function Named(ports: seq<Port>, fd: int, name: string): seq<Port> {
    seq(|ports|, i requires 0 <= i < |ports| => if ports[i].fd == fd then Port(fd, Some(name)) else ports[i])
  }

  /** The descriptor of the first entry with this name, or 0. */
  function DeviceOf(ports: seq<Port>, name: string): int {
    if ports == [] then 0
    else if ports[0].name == Some(name) then ports[0].fd
    else DeviceOf(ports[1..], name)
  }

  lemma {:induction false} TrimAbsent(ports: seq<Port>, fd: int)
    requires !HasFd(ports, fd)
    ensures Trimmed(ports, fd) == ports
  {
    if ports != [] {
      assert ports[0].fd != fd;
      forall i | 0 <= i < |ports[1..]|
        ensures ports[1..][i].fd != fd
      {
        assert ports[i + 1].fd != fd;
      }
      TrimAbsent(ports[1..], fd);
      assert ports == [ports[0]] + ports[1..];
    }
  }

  /** Where descriptors are unique, trimming takes out the one position. */
  lemma {:induction false} TrimAt(ports: seq<Port>, fd: int, k: nat)
    requires UniqueFds(ports) && k < |ports| && ports[k].fd == fd
    ensures Trimmed(ports, fd) == ports[..k] + ports[k + 1..]
  {
    var tail := ports[1..];
    assert UniqueFds(tail);
    if k == 0 {
      forall i | 0 <= i < |tail|
        ensures tail[i].fd != fd
      {
        assert ports[0].fd != ports[i + 1].fd;
      }
      TrimAbsent(tail, fd);
    } else {
      assert ports[0].fd != ports[k].fd && tail[k - 1] == ports[k];
      TrimAt(tail, fd, k - 1);
      assert [ports[0]] + tail[..k - 1] == ports[..k] && tail[k..] == ports[k + 1..];
    }
  }

  lemma UniqueWithout(ports: seq<Port>, k: nat)
    requires UniqueFds(ports) && k < |ports|
    ensures UniqueFds(ports[..k] + ports[k + 1..])
  {}

  /** Following an unknown descriptor and trimming it again is the identity. */
  lemma FollowThenTrim(ports: seq<Port>, fd: int)
    requires UniqueFds(ports)
    ensures UniqueFds(Followed(ports, fd))
    ensures Trimmed(Followed(ports, fd), fd) == Trimmed(ports, fd)
    ensures !HasFd(ports, fd) ==> Trimmed(Followed(ports, fd), fd) == ports
  {
    if !HasFd(ports, fd) {
      TrimAt(Followed(ports, fd), fd, |ports|);
      TrimAbsent(ports, fd);
    }
  }

  // ----- Opening and closing, with the kernel's side

  /** What becomes of the settings sio_open is given. */
  datatype Setup = SetupOk | BadBaud | BadMode

  /** The list, and the descriptors the kernel has open for serial ports. */
  datatype Sys = Sys(ports: seq<Port>, kernel: set<int>)
  datatype Outcome = Outcome(sys: Sys, code: int)

  /** sio_open; osFd is what open(2) answers if it is asked. A refused speed closes the
      descriptor but leaves its entry; an undefined parity or stop code removes the entry too. */
  function Opened(s: Sys, port: string, osFd: int, setup: Setup): Outcome {
    var found := DeviceOf(s.ports, port);
    var fd := if found == 0 then osFd else found;
    var kernel := if found == 0 && osFd != -1 then s.kernel + {osFd} else s.kernel;
    if fd == -1 then Outcome(s, ERR_PORT_OPEN)
    else
      var ports := Named(Followed(s.ports, fd), fd, port);
      Settled(ports, kernel, fd, setup)
  }

  function Settled(ports: seq<Port>, kernel: set<int>, fd: int, setup: Setup): Outcome {
    match setup
    case SetupOk => Outcome(Sys(ports, kernel), fd)
    case BadBaud => Outcome(Sys(ports, kernel - {fd}), -1)
    case BadMode => Outcome(Sys(Trimmed(ports, fd), kernel - {fd}), ERR_PORT_OPEN)
  }

  /** sio_close */
  function Closed(s: Sys, fd: int): Outcome {
    Outcome(Sys(Trimmed(Followed(s.ports, fd), fd), s.kernel - {fd}),
            if fd in s.kernel then OK_PORT_CLOSE else ERR_PORT_CLOSE)
  }

  datatype Op = Open(port: string, osFd: int, setup: Setup) | Close(fd: int)

  function Step(s: Sys, op: Op): Outcome {
    match op
    case Open(port, osFd, setup) => Opened(s, port, osFd, setup)
    case Close(fd) => Closed(s, fd)
  }

  /** open(2) fails with -1 or gives a descriptor that is not open. */
  predicate Possible(s: Sys, op: Op) {
    op.Open? ==> op.osFd == -1 || (op.osFd >= 0 && op.osFd !in s.kernel)
  }

  function Run(s: Sys, ops: seq<Op>): Sys
    decreases |ops|
  {
    if ops == [] then s else Run(Step(s, ops[0]).sys, ops[1..])
  }

  predicate AllPossible(s: Sys, ops: seq<Op>)
    decreases |ops|
  {
    ops == [] || (Possible(s, ops[0]) && AllPossible(Step(s, ops[0]).sys, ops[1..]))
  }

  /** In every history the list is one of named ports with distinct descriptors. */
  predicate WellKept(ports: seq<Port>) {
    UniqueFds(ports) && forall i :: 0 <= i < |ports| ==> ports[i].name.Some? && ports[i].fd >= 0
  }

  /** The list holds exactly the descriptors that are open. */
  ghost predicate Agrees(s: Sys) {
    forall fd: int :: HasFd(s.ports, fd) <==> fd in s.kernel
  }

  lemma {:induction false} TrimKeeps(ports: seq<Port>, fd: int)
    requires UniqueFds(ports)
    ensures UniqueFds(Trimmed(ports, fd))
    ensures forall g: int :: HasFd(Trimmed(ports, fd), g) <==> HasFd(ports, g) && g != fd
    ensures forall p :: p in Trimmed(ports, fd) ==> p in ports && p.fd != fd
  {
    if HasFd(ports, fd) {
      var k :| 0 <= k < |ports| && ports[k].fd == fd;
      TrimAt(ports, fd, k);
      UniqueWithout(ports, k);
      var r := ports[..k] + ports[k + 1..];
      forall g: int
        ensures HasFd(r, g) <==> HasFd(ports, g) && g != fd
      {
        if HasFd(ports, g) && g != fd {
          var j :| 0 <= j < |ports| && ports[j].fd == g;
          assert r[if j < k then j else j - 1].fd == g;
        }
        if HasFd(r, g) {
          var j :| 0 <= j < |r| && r[j].fd == g;
          assert ports[if j < k then j else j + 1].fd == g;
        }
      }
    } else {
      TrimAbsent(ports, fd);
    }
  }

  lemma FollowKeeps(ports: seq<Port>, fd: int)
    requires UniqueFds(ports)
    ensures UniqueFds(Followed(ports, fd))
    ensures forall g: int :: HasFd(Followed(ports, fd), g) <==> HasFd(ports, g) || g == fd
  {
    var r := Followed(ports, fd);
    forall g: int
      ensures HasFd(r, g) <==> HasFd(ports, g) || g == fd
    {
      if HasFd(ports, g) {
        var j :| 0 <= j < |ports| && ports[j].fd == g;
        assert r[j].fd == g;
      } else if g == fd {
        assert r[|ports|].fd == g;
      }
    }
  }

  lemma NameKeeps(ports: seq<Port>, fd: int, name: string)
    requires UniqueFds(ports)
    ensures UniqueFds(Named(ports, fd, name))
    ensures forall g: int :: HasFd(Named(ports, fd, name), g) <==> HasFd(ports, g)
  {
    var r := Named(ports, fd, name);
    assert forall i :: 0 <= i < |ports| ==> r[i].fd == ports[i].fd;
    forall g: int
      ensures HasFd(r, g) <==> HasFd(ports, g)
    {
      if HasFd(ports, g) {
        var j :| 0 <= j < |ports| && ports[j].fd == g;
        assert r[j].fd == g;
      }
    }
  }

  lemma WellKeptStep(s: Sys, op: Op)
    requires WellKept(s.ports) && Possible(s, op)
    ensures WellKept(Step(s, op).sys.ports)
  {
    hide UniqueFds, HasFd, Trimmed, Named, Followed, DeviceOf;
    match op
    case Close(fd) =>
      FollowThenTrim(s.ports, fd);
      TrimKeeps(s.ports, fd);
    case Open(port, osFd, setup) =>
      var found := DeviceOf(s.ports, port);
      DeviceIsListed(s.ports, port);
      var fd := if found == 0 then osFd else found;
      if fd != -1 {
        OpenedEntryIsNamed(s.ports, fd, port);
        NameKeeps(Followed(s.ports, fd), fd, port);
        TrimKeeps(Named(Followed(s.ports, fd), fd, port), fd);
      }
  }

  lemma OpenedEntryIsNamed(ports: seq<Port>, fd: int, name: string)
    requires WellKept(ports) && fd >= 0
    ensures UniqueFds(Followed(ports, fd)) && WellKept(Named(Followed(ports, fd), fd, name))
  {
    hide HasFd;
    FollowKeeps(ports, fd);
    NameKeeps(Followed(ports, fd), fd, name);
  }

  lemma {:induction false} DeviceIsListed(ports: seq<Port>, name: string)
    ensures DeviceOf(ports, name) == 0
            || exists i :: 0 <= i < |ports| && ports[i] == Port(DeviceOf(ports, name), Some(name))
  {
    if ports != [] && ports[0].name != Some(name) {
      DeviceIsListed(ports[1..], name);
      if DeviceOf(ports, name) != 0 {
        var i :| 0 <= i < |ports[1..]| && ports[1..][i] == Port(DeviceOf(ports, name), Some(name));
        assert ports[i + 1] == ports[1..][i];
      }
    } else if ports != [] {
      assert ports[0] == Port(DeviceOf(ports, name), Some(name));
    }
  }

  /** One operation keeps list and kernel in agreement exactly when it is not an opening whose
      descriptor is refused its speed. */
  lemma AgreementExactly(s: Sys, op: Op)
    requires WellKept(s.ports) && Possible(s, op) && Agrees(s)
    ensures Agrees(Step(s, op).sys)
            <==> !(op.Open? && op.setup == BadBaud && (DeviceOf(s.ports, op.port) != 0 || op.osFd != -1))
  {
    match op
    case Close(fd) =>
      FollowThenTrim(s.ports, fd);
      TrimKeeps(s.ports, fd);
    case Open(port, osFd, setup) =>
      var found := DeviceOf(s.ports, port);
      DeviceIsListed(s.ports, port);
      var fd := if found == 0 then osFd else found;
      if fd != -1 {
        FollowKeeps(s.ports, fd);
        NameKeeps(Followed(s.ports, fd), fd, port);
        TrimKeeps(Named(Followed(s.ports, fd), fd, port), fd);
        assert HasFd(Named(Followed(s.ports, fd), fd, port), fd);
      }
  }

  /** After any history without a refused speed the list is exactly the ports that are open; in
      every history its descriptors are distinct and its ports are named. */
  lemma {:induction false} ListIsOpenPorts(s: Sys, ops: seq<Op>)
    requires WellKept(s.ports) && AllPossible(s, ops)
    ensures WellKept(Run(s, ops).ports)
    ensures Agrees(s) && (forall i :: 0 <= i < |ops| && ops[i].Open? ==> ops[i].setup != BadBaud) ==> Agrees(Run(s, ops))
    decreases |ops|
  {
    if ops != [] {
      WellKeptStep(s, ops[0]);
      ListIsOpenPorts(Step(s, ops[0]).sys, ops[1..]);
      if Agrees(s) && (forall i :: 0 <= i < |ops| && ops[i].Open? ==> ops[i].setup != BadBaud) {
        AgreementExactly(s, ops[0]);
        assert forall i :: 0 <= i < |ops[1..]| ==> ops[1..][i] == ops[i + 1];
      }
    }
  }

  /** Opening a port that is open gives its descriptor back and changes nothing, unless that
      descriptor is 0, which the search cannot tell from no entry; then only a failing open(2)
      has this effect, as its error code is 0 as well. */
  lemma ReopenExactly(s: Sys, port: string, osFd: int, k: nat)
    requires WellKept(s.ports) && Agrees(s) && Possible(s, Open(port, osFd, SetupOk))
    requires k < |s.ports| && s.ports[k].name == Some(port)
    requires forall j :: 0 <= j < k ==> s.ports[j].name != Some(port)
    ensures Opened(s, port, osFd, SetupOk) == Outcome(s, s.ports[k].fd) <==> s.ports[k].fd != 0 || osFd == -1
  {
    FirstNamed(s.ports, port, k);
    var fd := s.ports[k].fd;
    assert HasFd(s.ports, fd);
    if fd != 0 {
      forall i | 0 <= i < |s.ports|
        ensures Named(s.ports, fd, port)[i] == s.ports[i]
      {
        assert i != k ==> s.ports[i].fd != fd;
      }
      assert Named(s.ports, fd, port) == s.ports;
    }
  }

  lemma {:induction false} FirstNamed(ports: seq<Port>, name: string, k: nat)
    requires k < |ports| && ports[k].name == Some(name)
    requires forall j :: 0 <= j < k ==> ports[j].name != Some(name)
    ensures DeviceOf(ports, name) == ports[k].fd
  {
    if k > 0 {
      FirstNamed(ports[1..], name, k - 1);
    }
  }

  /** A port that is not listed becomes the last entry, under the descriptor that is returned;
      closing that descriptor, or refusing the settings' codes, restores the list and the
      descriptors as they were. */
  lemma OpeningIsUndone(s: Sys, port: string, osFd: int)
    requires WellKept(s.ports) && Agrees(s) && Possible(s, Open(port, osFd, SetupOk))
    requires DeviceOf(s.ports, port) == 0 && osFd != -1
    ensures var r := Opened(s, port, osFd, SetupOk);
            && r == Outcome(Sys(s.ports + [Port(osFd, Some(port))], s.kernel + {osFd}), osFd)
            && Closed(r.sys, osFd) == Outcome(s, OK_PORT_CLOSE)
    ensures Opened(s, port, osFd, BadMode) == Outcome(s, ERR_PORT_OPEN)
  {
    assert !HasFd(s.ports, osFd);
    var ports := s.ports + [Port(osFd, Some(port))];
    assert Named(Followed(s.ports, osFd), osFd, port) == ports;
    assert ports[|s.ports|].fd == osFd && HasFd(ports, osFd);
    TrimAt(ports, osFd, |s.ports|);
    assert s.kernel + {osFd} - {osFd} == s.kernel;
  }

  /** What the callers get: the descriptor, or 0 if there is none or the codes are undefined, or -1 if
      the speed is refused; from closing, 0 or, if the descriptor was not open, -1. */
  lemma CodesReturned(s: Sys, port: string, osFd: int, fd: int)
    requires WellKept(s.ports)
    ensures var found := DeviceOf(s.ports, port); var got := if found == 0 then osFd else found;
            && Opened(s, port, osFd, SetupOk).code == (if got == -1 then 0 else got)
            && Opened(s, port, osFd, BadMode).code == 0
            && Opened(s, port, osFd, BadBaud).code == (if got == -1 then 0 else -1)
            && (got == -1 ==> Opened(s, port, osFd, SetupOk).sys == s)
    ensures Closed(s, fd).code == (if fd in s.kernel then 0 else -1)
  {}

  // ----- The heap structure

  class Sio {
    var next: Sio?
    var fd: int
    var name: Option<string>

    constructor (fd: int)
      ensures this.fd == fd && next == null && name == None
    {
      this.fd, next, name := fd, null, None;
    }

    function AsPort(): Port
      reads this
    {
      Port(fd, name)
    }
  }

  function AsPorts(nodes: seq<Sio>): (ports: seq<Port>)
    reads nodes
    ensures |ports| == |nodes|
    ensures forall i :: 0 <= i < |nodes| ==> ports[i] == nodes[i].AsPort()
  {
    seq(|nodes|, i requires 0 <= i < |nodes| reads nodes => nodes[i].AsPort())
  }

  class Registry {
    var list: Sio?
    /** The descriptors open(2) has given for serial ports and close(2) has not taken back */
    var kernel: set<int>
    ghost var nodes: seq<Sio>

    ghost predicate Linked()
      reads this`list, this`nodes, nodes
    {
      && (nodes == [] ==> list == null)
      && (nodes != [] ==> list == nodes[0] && nodes[|nodes| - 1].next == null)
      && (forall i :: 0 <= i < |nodes| - 1 ==> nodes[i].next == nodes[i + 1])
      && (forall i, j :: 0 <= i < j < |nodes| ==> nodes[i] != nodes[j])
    }

    ghost function Ports(): seq<Port>
      reads this`nodes, nodes
    {
      AsPorts(nodes)
    }

    ghost function System(): Sys
      reads this, nodes
    {
      Sys(Ports(), kernel)
    }

    ghost predicate Valid()
      reads this`list, this`nodes, nodes
    {
      Linked() && UniqueFds(Ports())
    }

    constructor ()
      ensures Valid() && System() == Sys([], {})
    {
      list, kernel, nodes := null, {}, [];
    }

    /** _sio_device */
    method Device(port: string) returns (fd: int)
      requires Valid()
      requires forall p :: p in Ports() ==> p.name.Some?
      ensures fd == DeviceOf(Ports(), port)
    {
      var sio := list;
      if sio == null {
        return 0;
      }
      ghost var i := 0;
      while sio.name != Some(port)
        invariant 0 <= i < |nodes| && sio == nodes[i]
        invariant DeviceOf(Ports(), port) == DeviceOf(Ports()[i..], port)
        decreases |nodes| - i
      {
        if sio.next == null {
          assert Ports()[i..][1..] == [];
          return 0;
        }
        assert Ports()[i..][1..] == Ports()[i + 1..];
        sio, i := sio.next, i + 1;
      }
      return sio.fd;
    }

    /** _sio_follow: the node of a descriptor, appended at the tail if there is none. */
    method Follow(fd: int) returns (sio: Sio)
      requires Valid()
      modifies this`list, this`nodes, nodes
      ensures Valid() && Ports() == Followed(old(Ports()), fd)
      ensures sio in nodes && sio.fd == fd
      ensures nodes == old(nodes) || (nodes == old(nodes) + [sio] && fresh(sio))
    {
      if list == null {
        sio := new Sio(fd);
        list, nodes := sio, [sio];
        assert Ports() == [Port(fd, None)];
        return;
      }
      sio := list;
      ghost var i := 0;
      while sio.fd != fd
        invariant 0 <= i < |nodes| && sio == nodes[i]
        invariant nodes == old(nodes) && Valid() && Ports() == old(Ports())
        invariant forall j :: 0 <= j < i ==> nodes[j].fd != fd
        decreases |nodes| - i
      {
        assert i < |nodes| - 1 ==> sio.next == nodes[i + 1];
        if sio.next == null {
          var node := new Sio(fd);
          Append(sio, node);
          return node;
        }
        sio, i := sio.next, i + 1;
      }
      assert Ports()[i].fd == fd;
    }

    /** A new node becomes the last one. */
    method Append(last: Sio, node: Sio)
      requires Valid() && nodes != [] && last == nodes[|nodes| - 1]
      requires node !in nodes && node.next == null && node.name == None
      requires !HasFd(Ports(), node.fd)
      modifies this`nodes, last`next
      ensures Valid() && nodes == old(nodes) + [node]
      ensures Ports() == old(Ports()) + [Port(node.fd, None)]
    {
      last.next := node;
      nodes := nodes + [node];
      assert Ports() == old(Ports()) + [Port(node.fd, None)];
    }

    /** _sio_trim: unlink the node of a descriptor; 0 if there was one. */
    method Trim(fd: int) returns (r: int)
      requires Valid()
      modifies this`list, this`nodes, nodes
      ensures Valid() && Ports() == Trimmed(old(Ports()), fd)
      ensures r == if HasFd(old(Ports()), fd) then 0 else -1
      ensures forall n :: n in nodes ==> n in old(nodes)
    {
      var sio := list;
      var preSio := sio;
      if sio == null {
        return -1;
      }
      ghost var i := 0;
      while sio.fd != fd
        invariant 0 <= i < |nodes| && sio == nodes[i]
        invariant preSio == nodes[if i == 0 then 0 else i - 1]
        invariant forall j :: 0 <= j < i ==> nodes[j].fd != fd
        decreases |nodes| - i
      {
        assert i < |nodes| - 1 ==> sio.next == nodes[i + 1];
        if sio.next == null {
          TrimAbsent(Ports(), fd);
          return -1;
        }
        preSio := sio;
        sio, i := sio.next, i + 1;
      }
      TrimAt(Ports(), fd, i);
      UniqueWithout(Ports(), i);
      assert Ports()[i].fd == fd;
      hide Trimmed, UniqueFds, HasFd;
      Unlink(preSio, sio, i);
      assert Ports() == old(Ports())[..i] + old(Ports())[i + 1..];
      return 0;
    }

    /** The pointer changes of _sio_trim, once the node and its predecessor are found. */
    method Unlink(preSio: Sio, sio: Sio, ghost i: nat)
      requires Linked() && i < |nodes| && sio == nodes[i]
      requires preSio == nodes[if i == 0 then 0 else i - 1]
      modifies this`list, this`nodes, preSio`next
      ensures Linked() && nodes == old(nodes)[..i] + old(nodes)[i + 1..]
    {
      hide UniqueFds, AsPorts;
      ghost var was := nodes;
      assert i < |nodes| - 1 ==> sio.next == nodes[i + 1];
      if sio.next != null {
        if preSio == sio {
          assert i == 0;
          list := sio.next;
        } else {
          preSio.next := sio.next;
        }
      } else {
        preSio.next := null;
      }
      if sio == list {
        list := null;
      }
      nodes := nodes[..i] + nodes[i + 1..];
      forall j | 0 <= j < |nodes| - 1
        ensures nodes[j].next == nodes[j + 1]
      {
        var k := if j < i then j else j + 1;
        assert nodes[j] == was[k] && was[k].next == (if k == i - 1 then was[i + 1] else was[k + 1]);
      }
    }

    /** sio_open, as far as the list goes. */
    method OpenPort(port: string, osFd: int, setup: Setup) returns (result: int)
      requires Valid() && (forall p :: p in Ports() ==> p.name.Some?)
      modifies this, nodes
      ensures Valid() && Outcome(System(), result) == Opened(old(System()), port, osFd, setup)
      ensures forall n :: n in nodes ==> n in old(nodes) || fresh(n)
    {
      hide WellKept, Settled, Named, Followed, HasFd, DeviceOf, AsPorts;
      var fd := Descriptor(port, osFd);
      if fd == -1 {
        return ERR_PORT_OPEN;
      }
      Register(fd, port);
      result := Settle(fd, setup);
    }

    /** The descriptor of a port in the list, or else the one open(2) gives. */
    method Descriptor(port: string, osFd: int) returns (fd: int)
      requires Valid() && forall p :: p in Ports() ==> p.name.Some?
      modifies this`kernel
      ensures var found := DeviceOf(Ports(), port);
              && fd == (if found == 0 then osFd else found)
              && kernel == (if found == 0 && osFd != -1 then old(kernel) + {osFd} else old(kernel))
    {
      fd := Device(port);
      if fd == 0 {
        fd := osFd;
        if osFd != -1 {
          kernel := kernel + {osFd};
        }
      }
    }

    /** The entry of the descriptor, with the name of the port. */
    method Register(fd: int, port: string)
      requires Valid()
      modifies this`list, this`nodes, nodes
      ensures kernel == old(kernel)
      ensures Valid() && Ports() == Named(Followed(old(Ports()), fd), fd, port)
      ensures nodes == old(nodes) || (nodes != [] && nodes[..|nodes| - 1] == old(nodes) && fresh(nodes[|nodes| - 1]))
    {
      hide UniqueFds, Named, Followed, HasFd;
      var sio := Follow(fd);
      SetName(sio, port);
    }

    /** The end of sio_open: the settings are accepted or refused. */
    method Settle(fd: int, setup: Setup) returns (result: int)
      requires Valid()
      modifies this, nodes
      ensures Valid()
      ensures Outcome(System(), result) == Settled(old(Ports()), old(kernel), fd, setup)
      ensures forall n :: n in nodes ==> n in old(nodes)
    {
      hide UniqueFds, Trimmed, HasFd;
      match setup
      case SetupOk =>
        return fd;
      case BadBaud =>
        kernel := kernel - {fd};
        return -1;
      case BadMode =>
        kernel := kernel - {fd};
        var _ := Trim(fd);
        return ERR_PORT_OPEN;
    }

    method SetName(sio: Sio, port: string)
      requires Valid() && sio in nodes
      modifies sio`name
      ensures Valid() && Ports() == Named(old(Ports()), sio.fd, port)
    {
      sio.name := Some(port);
      NameKeeps(old(Ports()), sio.fd, port);
      ghost var k :| 0 <= k < |nodes| && nodes[k] == sio;
      assert old(Ports())[k].fd == sio.fd;
      assert Ports() == Named(old(Ports()), sio.fd, port);
    }

    /** sio_close, as far as the list goes. */
    method ClosePort(fd: int) returns (result: int)
      requires Valid()
      modifies this, nodes
      ensures Valid() && Outcome(System(), result) == Closed(old(System()), fd)
      ensures forall n :: n in nodes ==> n in old(nodes) || fresh(n)
    {
      hide UniqueFds, Trimmed, Followed, HasFd;
      var sio := Follow(fd);
      var _ := Trim(fd);
      result := if fd in kernel then OK_PORT_CLOSE else ERR_PORT_CLOSE;
      kernel := kernel - {fd};
    }
  }
}
