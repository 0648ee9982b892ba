/** How the policy monitor detects that the policy files have changed. */
module PolicyMonitor {
  import opened Text
  import opened Sets

  /** A policy file as found: its path, and its checksum unless it cannot be read. */
  datatype PolicyFile = PolicyFile(path: string, checksum: Option<string>)

  predicate DistinctPaths(files: seq<PolicyFile>)
  {
    forall i, j :: 0 <= i < j < |files| ==> files[i].path != files[j].path
  }

  predicate Readable(files: seq<PolicyFile>)
  {
    forall i :: 0 <= i < |files| ==> files[i].checksum.Some?
  }

  /** The checksums by path. */
  function Checksums(files: seq<PolicyFile>): map<string, string>
    requires Readable(files)
  {
    if files == [] then map[] else
      Checksums(files[..|files| - 1])[files[|files| - 1].path := files[|files| - 1].checksum.value]
  }

  lemma {:induction false} PathsOf(files: seq<PolicyFile>, x: string)
    requires Readable(files)
    ensures x in Checksums(files) <==> exists i :: 0 <= i < |files| && files[i].path == x
  {
    if files != [] {
      PathsOf(files[..|files| - 1], x);
    }
  }

  lemma {:induction false} ChecksumOf(files: seq<PolicyFile>, i: nat)
    requires Readable(files) && DistinctPaths(files) && i < |files|
    ensures files[i].path in Checksums(files) && Checksums(files)[files[i].path] == files[i].checksum.value
  {
    if i < |files| - 1 {
      ChecksumOf(files[..|files| - 1], i);
    }
  }

  /** The map holds the checksum of every file under its path, and nothing else. */
  ghost predicate IsRecordOf(policies: map<string, string>, files: seq<PolicyFile>)
    requires Readable(files)
  {
    (forall i :: 0 <= i < |files| ==> files[i].path in policies && policies[files[i].path] == files[i].checksum.value)
    && forall x :: x in policies ==> exists i :: 0 <= i < |files| && files[i].path == x
  }

  /** A file is new or has another checksum, or one of the files recorded is gone. */
  ghost predicate HasChanged(before: map<string, string>, files: seq<PolicyFile>)
    requires Readable(files)
  {
    (exists i :: 0 <= i < |files| && (files[i].path !in before || before[files[i].path] != files[i].checksum.value))
    || (exists x :: x in before && forall i :: 0 <= i < |files| ==> files[i].path != x)
  }

  lemma ChecksumsRecord(files: seq<PolicyFile>)
    requires Readable(files) && DistinctPaths(files)
    ensures IsRecordOf(Checksums(files), files)
  {
    forall i | 0 <= i < |files| ensures files[i].path in Checksums(files) && Checksums(files)[files[i].path] == files[i].checksum.value {
      ChecksumOf(files, i);
    }
    forall x | x in Checksums(files) ensures exists i :: 0 <= i < |files| && files[i].path == x {
      PathsOf(files, x);
    }
  }

  lemma ChangeMeans(before: map<string, string>, now: map<string, string>, files: seq<PolicyFile>)
    requires Readable(files) && IsRecordOf(now, files)
    ensures before != now <==> HasChanged(before, files)
  {
    if !HasChanged(before, files) {
      forall x ensures x in before <==> x in now {
        if x in now {
          var i :| 0 <= i < |files| && files[i].path == x;
        }
        if x in before {
          var i :| 0 <= i < |files| && files[i].path == x;
        }
      }
      forall x | x in now ensures before[x] == now[x] {
        var i :| 0 <= i < |files| && files[i].path == x;
      }
      assert before == now;
    }
  }

  /** Every file is in the old map with the same checksum. */
  ghost predicate Unchanged(before: map<string, string>, now: map<string, string>)
  {
    forall x :: x in now ==> x in before && before[x] == now[x]
  }

  /** Nothing new or different, and as many files as before: then nothing has changed. */
  lemma NoChange(before: map<string, string>, now: map<string, string>)
    ensures before == now <==> Unchanged(before, now) && |before| == |now|
  {
    if Unchanged(before, now) && |before| == |now| {
      assert |before.Keys| == |before| && |now.Keys| == |now|;
      SubsetSize(now.Keys, before.Keys);
    }
  }

  class LocalPolicyMonitor {
    var policies: map<string, string>

    constructor ()
      ensures policies == map[]
    {
      policies := map[];
    }

    /**
     `calculateChecksum`: unless an error is reported, the checksums are recorded by path,
     and a change is reported exactly if a file is new, different or gone.
     */
    method CalculateChecksum(listing: Option<seq<PolicyFile>>) returns (changes: bool, failed: bool)
      requires listing.Some? ==> DistinctPaths(listing.value)
      modifies this
      ensures failed <==> listing.None? || listing.value == [] || !Readable(listing.value)
      ensures failed ==> !changes && policies == if listing.None? then old(policies) else map[]
      ensures !failed ==> IsRecordOf(policies, listing.value) && (changes <==> HasChanged(old(policies), listing.value))
    {
      if listing.None? {
        return false, true;
      }
      var files := listing.value;
      if |files| == 0 {
        policies := map[];
        return false, true;
      }
      var newPolicies: map<string, string> := map[];
      changes := false;
      for k := 0 to |files|
        invariant Readable(files[..k]) && newPolicies == Checksums(files[..k])
        invariant policies == old(policies)
        invariant changes <==> !Unchanged(policies, newPolicies)
      {
        if files[k].checksum.None? {
          policies := map[];
          return false, true;
        }
        var path, cs := files[k].path, files[k].checksum.value;
        PathsOf(files[..k], path);
        assert files[..k + 1][..k] == files[..k];
        if path in policies {
          if policies[path] != cs {
            changes := true;
          }
        } else {
          changes := true;
        }
        StillUnchanged(policies, newPolicies, path, cs);
        newPolicies := newPolicies[path := cs];
      }
      assert files[..|files|] == files;
      NoChange(policies, newPolicies);
      ChecksumsRecord(files);
      ChangeMeans(policies, newPolicies, files);
      if |policies| != |newPolicies| {
        changes := true;
      }
      policies := newPolicies;
      failed := false;
    }
  }

  lemma StillUnchanged(before: map<string, string>, now: map<string, string>, path: string, cs: string)
    requires path !in now
    ensures Unchanged(before, now[path := cs]) <==> Unchanged(before, now) && path in before && before[path] == cs
  {
    if Unchanged(before, now[path := cs]) {
      assert path in now[path := cs];
      forall x | x in now ensures x in before && before[x] == now[x] {
        assert x in now[path := cs];
      }
    }
  }
}
