/**
 * The socket side of the driver: the operations a handler performs, as a
 * trace, and `OpenCan` as a sequence of checked steps over the results the
 * operating system gives.
 */
module Transport {
  import opened CanTypes

  /** One observable action of a handler: the device mutex or a system call. */
  datatype Event =
    | Lock
    | Unlock
    | Socket
    | IfIndexIoctl(fd: int, ifName: string)
    | Bind(fd: int, ifIndex: int)
    | SetRcvTimeout(fd: int, seconds: uint8)
    | SetFilter(fd: int, canId: uint32, canMask: uint32)
    | Read(fd: int)
    | Write(fd: int, frame: CanFrame)

  predicate IsOpenStep(e: Event)
  {
    e.Socket? || e.IfIndexIoctl? || e.Bind? || e.SetRcvTimeout? || e.SetFilter?
  }

  /**
   * What the operating system answers to each step of OpenCan: the socket()
   * result, the SIOCGIFINDEX ioctl result and the index left in the request,
   * and the results of bind() and of the two setsockopt() calls.
   */
  datatype OpenOracle = OpenOracle(
    socketRet: int,
    ioctlRet: int,
    ifIndex: int,
    bindRet: int,
    rcvTimeoRet: int,
    filterRet: int)

  /** OpenCan's return code, the value it stores in sock_fd, and the calls it made. */
  datatype OpenOutcome = OpenOutcome(ret: int, sockFd: int, calls: seq<Event>)

  /** The five calls of a complete open, in the order the source makes them. */
  function OpenCalls(ifName: string, timeout: uint8, filterId: uint32, filterMask: uint32, os: OpenOracle): (t: seq<Event>)
    ensures |t| == 5 && t[0] == Socket
    ensures forall i :: 0 <= i < |t| ==> IsOpenStep(t[i])
  {
    var fd := os.socketRet;
    [Socket, IfIndexIoctl(fd, ifName), Bind(fd, os.ifIndex), SetRcvTimeout(fd, timeout), SetFilter(fd, filterId, filterMask)]
  }

  /** The socket, bind and both setsockopt calls succeed (the ioctl is not checked). */
  predicate OpenSucceeds(os: OpenOracle)
  {
    os.socketRet >= 0 && os.bindRet >= 0 && os.rcvTimeoRet >= 0 && os.filterRet >= 0
  }

  /**
   * OpenCan: returns 0 exactly when every checked step succeeds and -1
   * otherwise; stops after the first failing step without closing the
   * descriptor, which stays in sock_fd.
   */
  function OpenCan(ifName: string, timeout: uint8, filterId: uint32, filterMask: uint32, os: OpenOracle): (r: OpenOutcome)
    ensures r.ret == (if OpenSucceeds(os) then 0 else -1)
    ensures r.sockFd == os.socketRet
    ensures 1 <= |r.calls| <= 5
    ensures r.calls == OpenCalls(ifName, timeout, filterId, filterMask, os)[..|r.calls|]
    ensures |r.calls| == 5 <==> os.socketRet >= 0 && os.bindRet >= 0 && os.rcvTimeoRet >= 0
    ensures os.socketRet < 0 <==> |r.calls| == 1
    ensures os.socketRet >= 0 && os.bindRet < 0 <==> |r.calls| == 3
    ensures os.socketRet >= 0 && os.bindRet >= 0 && os.rcvTimeoRet < 0 <==> |r.calls| == 4
  {
    var fd := os.socketRet;
    if fd < 0 then OpenOutcome(-1, fd, [Socket])
    else
      var afterIoctl := [Socket, IfIndexIoctl(fd, ifName)];
      if os.bindRet < 0 then OpenOutcome(-1, fd, afterIoctl + [Bind(fd, os.ifIndex)])
      else
        var afterBind := afterIoctl + [Bind(fd, os.ifIndex)];
        if os.rcvTimeoRet < 0 then OpenOutcome(-1, fd, afterBind + [SetRcvTimeout(fd, timeout)])
        else
          var all := afterBind + [SetRcvTimeout(fd, timeout), SetFilter(fd, filterId, filterMask)];
          OpenOutcome(if os.filterRet < 0 then -1 else 0, fd, all)
  }

  /** The result of the SIOCGIFINDEX ioctl has no effect on OpenCan. */
  lemma IoctlResultIgnored(ifName: string, timeout: uint8, filterId: uint32, filterMask: uint32, os: OpenOracle, ioctlRet: int)
    ensures OpenCan(ifName, timeout, filterId, filterMask, os.(ioctlRet := ioctlRet))
         == OpenCan(ifName, timeout, filterId, filterMask, os)
  {
  }

  /** Every call OpenCan makes is an open step, and exactly the first is socket(). */
  lemma OpenCanCalls(ifName: string, timeout: uint8, filterId: uint32, filterMask: uint32, os: OpenOracle)
    ensures var c := OpenCan(ifName, timeout, filterId, filterMask, os).calls;
      c[0] == Socket && (forall i :: 0 <= i < |c| ==> IsOpenStep(c[i]))
      && (forall i :: 1 <= i < |c| ==> !c[i].Socket?)
  {
  }
}
