/**
  The `main` loop of config_backup.py: for each entry of the address list,
  skip it if invalid, detect the device type, retrieve the configuration, and
  save it when non-empty. Each network step and the clock are inputs; the
  model records the steps the loop takes, in order.
 */
module BackupBatch {
  import opened Wrappers
  import opened IpList
  import opened DeviceClassifier
  import opened ConfigCommands
  import opened BackupFile

  /**
    What the network and the clock give while one list entry is processed:
    the detection probe, the reply to the configuration command (`None` where
    `get_config` raised) and the clock reading `save_config` takes.
   */
  datatype DeviceRun = DeviceRun(probe: Option<Probe>, reply: Option<string>, now: DateTime)

  /** The side-effecting steps of the loop, each for one address. */
  datatype Step =
    | Detect(ip: string)
    | Retrieve(ip: string, deviceType: DeviceType)
    | Save(ip: string, path: string, config: string)

  /**
    The steps for one list entry: none for an invalid address, detection, then
    retrieval for a detected type, then saving for a non-empty configuration.
   */
  function DeviceSteps(ip: string, valid: bool, run: DeviceRun, dir: string): (r: seq<Step>)
    ensures forall j :: 0 <= j < |r| ==> r[j].ip == ip
    ensures r != [] <==> valid
    ensures r != [] ==> r[0] == Detect(ip)
  {
    if !valid then []
    else match GetDeviceType(run.probe)
      case None => [Detect(ip)]
      case Some(d) =>
        var config := GetConfig(d, run.reply);
        if config.Some? && config.value != "" then
          [Detect(ip), Retrieve(ip, d), Save(ip, BackupPath(dir, ip, run.now), config.value)]
        else [Detect(ip), Retrieve(ip, d)]
  }

  /**
    Which steps one list entry takes: detection exactly for a valid address,
    retrieval exactly for a detected type, and saving exactly for a detected
    type whose configuration came back non-empty, under the name made from the
    address and the clock reading.
   */
  lemma DeviceStepsContents(ip: string, valid: bool, run: DeviceRun, dir: string, s: Step)
    ensures s.Detect? ==> (s in DeviceSteps(ip, valid, run, dir) <==> valid && s.ip == ip)
    ensures s.Retrieve? ==> (s in DeviceSteps(ip, valid, run, dir) <==>
      valid && s.ip == ip && GetDeviceType(run.probe) == Some(s.deviceType))
    ensures s.Save? ==> (s in DeviceSteps(ip, valid, run, dir) <==>
      && valid && s.ip == ip && GetDeviceType(run.probe).Some?
      && run.reply == Some(s.config) && s.config != "" && s.path == BackupPath(dir, ip, run.now))
  {
    if valid && GetDeviceType(run.probe).Some? {
      assert GetConfig(GetDeviceType(run.probe).value, run.reply) == run.reply;
    }
  }

  /** The steps for the list entries from index `k` on; `world(m)` is what entry `m` meets. */
  function Steps(ips: seq<string>, isValid: string -> bool, world: nat -> DeviceRun, dir: string, k: nat): seq<Step>
    requires k <= |ips|
    decreases |ips| - k
  {
    if k == |ips| then []
    else DeviceSteps(ips[k], isValid(ips[k]), world(k), dir) + Steps(ips, isValid, world, dir, k + 1)
  }

  /**
    The whole run from the contents of the address list file (`None` where it
    could not be read); `isValid` stands for `validate_ip`.
   */
  function Backup(ipFile: Option<string>, isValid: string -> bool, world: nat -> DeviceRun, dir: string): seq<Step> {
    var ips := ReadIpList(ipFile);
    if ips == [] then [] else Steps(ips, isValid, world, dir, 0)
  }

  /**
    One pass of the loop body of `main()` for entry `ip`: each early `return`
    is one of the loop's `continue`s.
   */
  method ProcessDevice(ip: string, valid: bool, run: DeviceRun, outputDir: string) returns (device: seq<Step>)
    ensures device == DeviceSteps(ip, valid, run, outputDir)
  {
    if !valid {
      return [];
    }
    device := [Detect(ip)];
    var deviceType := GetDeviceType(run.probe);
    if deviceType.None? {
      return;
    }
    device := device + [Retrieve(ip, deviceType.value)];
    var config := GetConfig(deviceType.value, run.reply);
    if config.Some? && config.value != "" {
      device := device + [Save(ip, BackupPath(outputDir, ip, run.now), config.value)];
    }
  }

  /** `main()`, with the file, the validator, the network and the clock as inputs. */
  method BackupDevices(ipFile: Option<string>, isValid: string -> bool, world: nat -> DeviceRun, outputDir: string)
    returns (steps: seq<Step>)
    ensures steps == Backup(ipFile, isValid, world, outputDir)
  {
    var ipList := ReadIpList(ipFile);
    if ipList == [] {
      return [];
    }
    steps := [];
    var i := 0;
    ghost var all := Steps(ipList, isValid, world, outputDir, 0);
    assert steps + all == all;
    while i < |ipList|
      invariant 0 <= i <= |ipList|
      invariant steps + Steps(ipList, isValid, world, outputDir, i) == all
    {
      var ip := ipList[i];
      var device := ProcessDevice(ip, isValid(ip), world(i), outputDir);
      assert Steps(ipList, isValid, world, outputDir, i) == device + Steps(ipList, isValid, world, outputDir, i + 1);
      ConcatAssoc(steps, device, Steps(ipList, isValid, world, outputDir, i + 1));
      steps := steps + device;
      i := i + 1;
    }
    assert steps + [] == steps;
  }

  lemma ConcatAssoc<T>(a: seq<T>, b: seq<T>, c: seq<T>)
    ensures (a + b) + c == a + (b + c)
  {
  }

  /** Every step of the run is a step of some list entry, and this finds the entry. */
  lemma {:induction false} EntryOfStep(ips: seq<string>, isValid: string -> bool, world: nat -> DeviceRun, dir: string, k: nat, s: Step)
    returns (m: nat)
    requires k <= |ips| && s in Steps(ips, isValid, world, dir, k)
    ensures k <= m < |ips| && s in DeviceSteps(ips[m], isValid(ips[m]), world(m), dir)
    decreases |ips| - k
  {
    var here := DeviceSteps(ips[k], isValid(ips[k]), world(k), dir);
    var later := Steps(ips, isValid, world, dir, k + 1);
    assert Steps(ips, isValid, world, dir, k) == here + later;
    if s in here {
      m := k;
    } else {
      m := EntryOfStep(ips, isValid, world, dir, k + 1, s);
    }
  }

  /** Every step of every list entry from `k` on is a step of the run from `k`. */
  lemma {:induction false} StepOfEntryInSteps(ips: seq<string>, isValid: string -> bool, world: nat -> DeviceRun, dir: string, k: nat, m: nat, s: Step)
    requires k <= m < |ips| && s in DeviceSteps(ips[m], isValid(ips[m]), world(m), dir)
    ensures s in Steps(ips, isValid, world, dir, k)
    decreases |ips| - k
  {
    var here := DeviceSteps(ips[k], isValid(ips[k]), world(k), dir);
    var later := Steps(ips, isValid, world, dir, k + 1);
    assert Steps(ips, isValid, world, dir, k) == here + later;
    if m > k {
      StepOfEntryInSteps(ips, isValid, world, dir, k + 1, m, s);
    }
  }

  /** The address of every step is a valid address of the list. */
  lemma StepsOnlyForValidAddresses(ipFile: Option<string>, isValid: string -> bool, world: nat -> DeviceRun, dir: string, s: Step)
    requires s in Backup(ipFile, isValid, world, dir)
    ensures s.ip in ReadIpList(ipFile) && isValid(s.ip)
  {
    var ips := ReadIpList(ipFile);
    var m := EntryOfStep(ips, isValid, world, dir, 0, s);
    var r := DeviceSteps(ips[m], isValid(ips[m]), world(m), dir);
    var j :| 0 <= j < |r| && r[j] == s;
  }

  /**
    A configuration is retrieved only for a device whose type was detected, and
    saved only when it is non-empty, under the name made from the entry's address
    and the clock reading at that entry.
   */
  lemma SavesComeFromDetectedDevices(ipFile: Option<string>, isValid: string -> bool, world: nat -> DeviceRun, dir: string, s: Step)
    requires s in Backup(ipFile, isValid, world, dir) && !s.Detect?
    ensures var ips := ReadIpList(ipFile);
      exists m :: 0 <= m < |ips| && ips[m] == s.ip && isValid(ips[m]) && GetDeviceType(world(m).probe).Some?
        && (s.Retrieve? ==> GetDeviceType(world(m).probe) == Some(s.deviceType))
        && (s.Save? ==> world(m).reply == Some(s.config) && s.config != "" && s.path == BackupPath(dir, s.ip, world(m).now))
  {
    var ips := ReadIpList(ipFile);
    var m := EntryOfStep(ips, isValid, world, dir, 0, s);
    DeviceStepsContents(ips[m], isValid(ips[m]), world(m), dir, s);
  }

  /** The addresses the loop tries to detect: the valid entries, in list order, duplicates kept. */
  function Detected(steps: seq<Step>): seq<string> {
    if steps == [] then []
    else (if steps[0].Detect? then [steps[0].ip] else []) + Detected(steps[1..])
  }

  /** The valid entries of a list, in order. */
  function ValidEntries(ips: seq<string>, isValid: string -> bool): seq<string> {
    if ips == [] then []
    else (if isValid(ips[0]) then [ips[0]] else []) + ValidEntries(ips[1..], isValid)
  }

  lemma {:induction false} DetectedAppend(a: seq<Step>, b: seq<Step>)
    ensures Detected(a + b) == Detected(a) + Detected(b)
  {
    if a == [] {
      assert a + b == b;
    } else {
      assert (a + b)[0] == a[0] && (a + b)[1..] == a[1..] + b;
      DetectedAppend(a[1..], b);
    }
  }

  lemma DetectedOfDevice(ip: string, valid: bool, run: DeviceRun, dir: string)
    ensures Detected(DeviceSteps(ip, valid, run, dir)) == if valid then [ip] else []
  {
    if valid {
      match GetDeviceType(run.probe)
      case None =>
        assert [Detect(ip)][1..] == [];
      case Some(d) =>
        var config := GetConfig(d, run.reply);
        var later := if config.Some? && config.value != "" then [Save(ip, BackupPath(dir, ip, run.now), config.value)] else [];
        assert DeviceSteps(ip, valid, run, dir) == [Detect(ip)] + ([Retrieve(ip, d)] + later);
        assert Detected([Retrieve(ip, d)] + later) == Detected(later) by {
          assert ([Retrieve(ip, d)] + later)[1..] == later;
        }
        if later != [] {
          assert later[1..] == [];
        }
    }
  }

  /**
    Every valid entry, and no invalid one, reaches detection, once per
    occurrence and in list order.
   */
  lemma {:induction false} DetectedAreValidEntries(ips: seq<string>, isValid: string -> bool, world: nat -> DeviceRun, dir: string, k: nat)
    requires k <= |ips|
    ensures Detected(Steps(ips, isValid, world, dir, k)) == ValidEntries(ips[k..], isValid)
    decreases |ips| - k
  {
    if k < |ips| {
      DetectedAreValidEntries(ips, isValid, world, dir, k + 1);
      DetectedAppend(DeviceSteps(ips[k], isValid(ips[k]), world(k), dir), Steps(ips, isValid, world, dir, k + 1));
      DetectedOfDevice(ips[k], isValid(ips[k]), world(k), dir);
      assert ips[k..][0] == ips[k] && ips[k..][1..] == ips[k + 1..];
    } else {
      assert ips[k..] == [];
    }
  }

  /**
    Steps for one address come together and in pipeline order: a retrieval
    directly follows the detection of its address, and a save directly follows
    the retrieval for its address.
   */
  ghost predicate InPipelineOrder(steps: seq<Step>) {
    forall j :: 0 <= j < |steps| ==> FollowsItsPredecessor(steps, j)
  }

  /** Step `j` is where the pipeline order puts it relative to step `j - 1`. */
  ghost predicate FollowsItsPredecessor(steps: seq<Step>, j: nat)
    requires j < |steps|
  {
    && (steps[j].Retrieve? ==> 0 < j && steps[j - 1] == Detect(steps[j].ip))
    && (steps[j].Save? ==> 0 < j && steps[j - 1].Retrieve? && steps[j - 1].ip == steps[j].ip)
  }

  lemma OrderedAppend(a: seq<Step>, b: seq<Step>)
    requires InPipelineOrder(a) && InPipelineOrder(b) && (b != [] ==> b[0].Detect?)
    ensures InPipelineOrder(a + b)
  {
    var c := a + b;
    forall j | 0 <= j < |c| ensures FollowsItsPredecessor(c, j) {
      if j >= |a| {
        assert FollowsItsPredecessor(b, j - |a|);
        assert c[j] == b[j - |a|];
        if j > |a| {
          assert c[j - 1] == b[j - 1 - |a|];
        }
      } else {
        assert FollowsItsPredecessor(a, j);
        assert c[j] == a[j];
        if j > 0 {
          assert c[j - 1] == a[j - 1];
        }
      }
    }
  }

  /** The run keeps every address's steps together and in pipeline order. */
  lemma {:induction false} StepsInPipelineOrder(ips: seq<string>, isValid: string -> bool, world: nat -> DeviceRun, dir: string, k: nat)
    requires k <= |ips|
    ensures InPipelineOrder(Steps(ips, isValid, world, dir, k))
    ensures Steps(ips, isValid, world, dir, k) != [] ==> Steps(ips, isValid, world, dir, k)[0].Detect?
    decreases |ips| - k
  {
    if k < |ips| {
      StepsInPipelineOrder(ips, isValid, world, dir, k + 1);
      var r := DeviceSteps(ips[k], isValid(ips[k]), world(k), dir);
      assert InPipelineOrder(r);
      OrderedAppend(r, Steps(ips, isValid, world, dir, k + 1));
    }
  }
}
