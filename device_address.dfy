/**
 * `can_create_address`: builds a device's `end_dev_params` from the "CAN"
 * protocol properties of the device, checking the keys in a fixed order.
 */
module DeviceAddress {
  import opened Wrappers
  import opened CanTypes
  import Strtoul

  /** end_dev_params as can_create_address leaves it (the mutex is left to the handlers). */
  datatype Address = Address(
    canInterface: string,
    filterMsgId: uint32,
    filterMask: uint32,
    timeout: uint8,
    canIsOpened: bool,
    sockFd: int)

  const MallocFailed := "end_dev_params_ptr - malloc failed"
  const CanFieldMissing := "CAN field not present"
  const DevInterfaceMissing := "DevInterface in device address missing"
  const FilterMsgIdMissing := "FilterMsgId in device address missing"
  const FilterMsgIdAccessError := "FilterMsgId access error"
  const FilterMaskMissing := "FilterMask in device address missing"
  const FilterMaskAccessError := "FilterMask access error"
  const TimeOutMissing := "TimeOut in device address missing"
  const TimeOutAccessError := "TimeOut access error"

  /**
   * The address for protocol properties `props` (None when the device has no
   * "CAN" protocol); `mallocOk` is the outcome of the allocation. errno is
   * cleared once on entry, so an ERANGE left by one strtoul is still seen by
   * the checks of the fields after it.
   */
  function CreateAddress(mallocOk: bool, props: Option<map<string, string>>): (r: Result<Address>)
    ensures !mallocOk ==> r == Err(MallocFailed)
    ensures mallocOk && props.None? ==> r == Err(CanFieldMissing)
    ensures mallocOk && props.Some? ==> var m := props.value;
      && ("DevInterface" !in m ==> r == Err(DevInterfaceMissing))
      && ("DevInterface" in m && "FilterMsgId" !in m ==> r == Err(FilterMsgIdMissing))
      && ("DevInterface" in m && "FilterMsgId" in m && "FilterMask" !in m ==> r == Err(FilterMaskMissing))
      && ("DevInterface" in m && "FilterMsgId" in m && "FilterMask" in m && "TimeOut" !in m ==>
            (r == Err(TimeOutMissing) || r == Err(FilterMaskAccessError))
            && (!Strtoul.Parse(m["FilterMsgId"]).erange ==> r == Err(TimeOutMissing)))
    ensures r.Ok? <==> mallocOk && props.Some? && AllKeys(props.value) && !AccessError(props.value)
    ensures mallocOk && props.Some? && AllKeys(props.value) && AccessError(props.value) ==>
      r == Err(FilterMaskAccessError) || r == Err(TimeOutAccessError)
    ensures r.Ok? ==> var m := props.value;
      && r.value.canInterface == m["DevInterface"]
      && r.value.filterMsgId == Strtoul.Parse(m["FilterMsgId"]).value % 0x1_0000_0000
      && r.value.filterMask == Strtoul.Parse(m["FilterMask"]).value % 0x1_0000_0000
      && r.value.timeout == Strtoul.Parse(m["TimeOut"]).value % 0x100
      && !r.value.canIsOpened
      && r.value.sockFd == 0
  {
    if !mallocOk then Err(MallocFailed)
    else if props.None? then Err(CanFieldMissing)
    else
      var m := props.value;
      if "DevInterface" !in m then Err(DevInterfaceMissing)
      else if "FilterMsgId" !in m then Err(FilterMsgIdMissing)
      else
        var id := Strtoul.Parse(m["FilterMsgId"]);
        var errno1 := id.erange;
        var filterMsgId := ToUint32(id.value);
        if filterMsgId == 0 && errno1 then Err(FilterMsgIdAccessError)
        else if "FilterMask" !in m then Err(FilterMaskMissing)
        else
          var mask := Strtoul.Parse(m["FilterMask"]);
          var errno2 := errno1 || mask.erange;
          var filterMask := ToUint32(mask.value);
          if filterMask == 0 && errno2 then Err(FilterMaskAccessError)
          else if "TimeOut" !in m then Err(TimeOutMissing)
          else
            var time := Strtoul.Parse(m["TimeOut"]);
            var errno3 := errno2 || time.erange;
            var timeout := ToUint8(time.value);
            if timeout == 0 && errno3 then Err(TimeOutAccessError)
            else Ok(Address(m["DevInterface"], filterMsgId, filterMask, timeout, false, 0))
  }

  predicate AllKeys(m: map<string, string>)
  {
    "DevInterface" in m && "FilterMsgId" in m && "FilterMask" in m && "TimeOut" in m
  }

  /**
   * The "access error" condition of the source, stated over the whole map:
   * some number narrows to 0 while errno holds an ERANGE from it or an earlier one.
   */
  predicate AccessError(m: map<string, string>)
    requires AllKeys(m)
  {
    var id := Strtoul.Parse(m["FilterMsgId"]);
    var mask := Strtoul.Parse(m["FilterMask"]);
    var time := Strtoul.Parse(m["TimeOut"]);
    || (id.value % 0x1_0000_0000 == 0 && id.erange)
    || (mask.value % 0x1_0000_0000 == 0 && (id.erange || mask.erange))
    || (time.value % 0x100 == 0 && (id.erange || mask.erange || time.erange))
  }

  /** ULONG_MAX narrowed to either width is never 0. */
  lemma SaturatedNeverZero()
    ensures Strtoul.UlongMax % 0x1_0000_0000 != 0 && Strtoul.UlongMax % 0x100 != 0
  {
  }

  /**
   * The FilterMsgId access check can never fire: when strtoul sets ERANGE it
   * returns ULONG_MAX, whose low 32 bits are not 0.
   */
  lemma MsgIdAccessErrorUnreachable(mallocOk: bool, props: Option<map<string, string>>)
    ensures CreateAddress(mallocOk, props) != Err(FilterMsgIdAccessError)
  {
    SaturatedNeverZero();
  }

  /**
   * A FilterMask access error is never caused by the mask itself overflowing:
   * it needs an overflowing FilterMsgId before it and a mask whose low 32 bits are 0.
   */
  lemma MaskAccessErrorComesFromMsgId(mallocOk: bool, m: map<string, string>)
    requires CreateAddress(mallocOk, Some(m)) == Err(FilterMaskAccessError)
    ensures "FilterMsgId" in m && "FilterMask" in m
    ensures Strtoul.Parse(m["FilterMsgId"]).erange && !Strtoul.Parse(m["FilterMask"]).erange
    ensures Strtoul.Parse(m["FilterMask"]).value % 0x1_0000_0000 == 0
  {
    SaturatedNeverZero();
  }

  /**
   * A TimeOut access error is never caused by the timeout itself overflowing:
   * it needs an overflowing FilterMsgId or FilterMask before it and a timeout
   * whose low 8 bits are 0.
   */
  lemma TimeOutAccessErrorComesFromEarlier(mallocOk: bool, m: map<string, string>)
    requires CreateAddress(mallocOk, Some(m)) == Err(TimeOutAccessError)
    ensures AllKeys(m)
    ensures Strtoul.Parse(m["FilterMsgId"]).erange || Strtoul.Parse(m["FilterMask"]).erange
    ensures !Strtoul.Parse(m["TimeOut"]).erange
    ensures Strtoul.Parse(m["TimeOut"]).value % 0x100 == 0
  {
    SaturatedNeverZero();
  }

  /** An out-of-range timeout is accepted: it saturates to ULONG_MAX and narrows to 255. */
  lemma OverflowingTimeoutAccepted(m: map<string, string>)
    requires AllKeys(m)
    requires !Strtoul.Parse(m["FilterMsgId"]).erange && !Strtoul.Parse(m["FilterMask"]).erange
    requires Strtoul.Parse(m["TimeOut"]).erange
    ensures CreateAddress(true, Some(m)).Ok?
    ensures CreateAddress(true, Some(m)).value.timeout == 0xFF
  {
    var time := Strtoul.Parse(m["TimeOut"]);
    assert time.value == Strtoul.UlongMax;
    assert Strtoul.UlongMax % 0x100 == 0xFF;
    assert !AccessError(m);
  }

  /** A decimal timeout of 256 seconds or more is silently narrowed modulo 256. */
  lemma DecimalTimeoutNarrowed(m: map<string, string>, seconds: nat)
    requires AllKeys(m) && !AccessError(m)
    requires seconds <= Strtoul.UlongMax && m["TimeOut"] == Strtoul.ToDigits(seconds, 10)
    ensures CreateAddress(true, Some(m)).value.timeout == seconds % 0x100
  {
    Strtoul.DecimalRoundTrip(seconds);
  }
}
