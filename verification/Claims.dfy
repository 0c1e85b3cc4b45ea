/** The parts of a ResourceClaim that the kubelet plugins read. */
module Claims {
  import opened Basics

  datatype AllocationResult = AllocationResult(
    request: string, driver: string, pool: string, device: string, adminAccess: Option<bool>)

  /** Names of all allocated devices, whichever driver they belong to. */
  function DeviceNames(results: seq<AllocationResult>): set<string> {
    set r <- results :: r.device
  }

  predicate IsNonAdmin(driverName: string, r: AllocationResult) {
    r.driver == driverName && r.adminAccess != Some(true)
  }

  /** Names of this driver's devices that were not requested with admin access. */
  function NonAdminDevices(driverName: string, results: seq<AllocationResult>): set<string> {
    set r <- results | IsNonAdmin(driverName, r) :: r.device
  }

  function OfDriver(driverName: string, results: seq<AllocationResult>): seq<AllocationResult> {
    if results == [] then []
    else
      var init := OfDriver(driverName, results[..|results| - 1]);
      var last := results[|results| - 1];
      if last.driver == driverName then init + [last] else init
  }

  /** The loop shared by `requestedNonAdminDevices` and `GetNonAdminDevices`. */
  method CollectNonAdminDevices(driverName: string, results: seq<AllocationResult>) returns (requested: set<string>)
    ensures requested == NonAdminDevices(driverName, results)
    ensures forall d :: d in requested <==>
              exists r :: r in results && r.driver == driverName && r.adminAccess != Some(true) && r.device == d
  {
    requested := {};
    for i := 0 to |results|
      invariant requested == NonAdminDevices(driverName, results[..i])
    {
      var r := results[i];
      assert results[..i + 1] == results[..i] + [r];
      if r.driver != driverName {
        continue;
      }
      if r.adminAccess == Some(true) {
        continue;
      }
      requested := requested + {r.device};
    }
    assert results[..|results|] == results;
  }
}
