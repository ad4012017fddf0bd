/**
 Why the pipeline has its order (app/manager.go:69-98): what the stages make and
 what they need. Whenever a stage is applied, over every run with failures and
 deaths, everything it needs is there; and nothing is rolled back while a stage
 that needs it is still recorded.
 */
module Inputs {
  import opened Model
  import opened Lifecycle
  import opened Records

  datatype Thing =
    | Registration | HeldAddresses | Directory | Binaries | RHCOSImages | SSHKey | InstallIgnition
    | BootMedia | DHCPReservation | MasterVM | InstalledCluster | TrustedKubeconfig

  /** The stage whose Apply leaves it behind. */
  function Maker(os: OS, t: Thing): Stage {
    match t
    case Registration => RegisterCluster
    case HeldAddresses => AllocateNetwork
    case Directory => EnsureClusterDir
    case Binaries => DownloadBinaries
    case RHCOSImages => DownloadRHCOS
    case SSHKey => GenerateSSHKey
    case InstallIgnition => GenerateIgnition
    case BootMedia => if os.Darwin? then PublishPXEAssets else EmbedIgnitionISO
    case DHCPReservation => CreateNetwork
    case MasterVM => CreateMasterVMs
    case InstalledCluster => WaitForInstall
    case TrustedKubeconfig => ApplyTLSCerts
  }

  /** What a stage's Apply reads, in config.json, in the cluster directory, or from the host. */
  predicate Needs(s: Stage, t: Thing) {
    match s
    case RegisterCluster => false
    case AllocateNetwork => t == Registration
    case UpsertDNS => t == HeldAddresses
    case EnsureClusterDir => t == Registration
    case DownloadBinaries => false
    case DownloadRHCOS => t == Binaries
    case BakeImageStore => t == Binaries
    case GenerateSSHKey => t == Directory
    case GenerateIgnition => t == SSHKey || t == Binaries || t == HeldAddresses
    case EmbedIgnitionISO => t == InstallIgnition || t == RHCOSImages || t == Binaries || t == HeldAddresses
    case PublishPXEAssets => t == InstallIgnition || t == RHCOSImages || t == HeldAddresses
    case CreateNetwork => t == HeldAddresses
    case CreateMasterVMs => t == BootMedia || t == DHCPReservation || t == HeldAddresses || t == RHCOSImages
    case VerifyMasterIP => t == MasterVM
    case WaitForInstall => t == MasterVM || t == SSHKey || t == Binaries || t == InstallIgnition
    case ApplyTLSCerts => t == InstalledCluster || t == Binaries || t == InstallIgnition
    case MergeKubeconfig => t == TrustedKubeconfig || t == Binaries
    case InstallODF => t == InstalledCluster || t == Binaries
    case Finalize => t == InstalledCluster
  }

  lemma MadeBefore(os: OS, i: nat, t: Thing)
    requires i < |Pipeline(os)| && Needs(Pipeline(os)[i], t)
    ensures Position(Maker(os, t)) < i && Pipeline(os)[Position(Maker(os, t))] == Maker(os, t)
  {
  }

  /** A stage is applied only when everything it needs was made by a recorded stage. */
  lemma NeedsAreMade(os: OS, ls: seq<Label>, t: Thing)
    requires var w := Run(Fresh(os), ls);
             && w.proc.Applying? && !w.proc.done && w.proc.k < |Pipeline(os)|
             && Pipeline(os)[w.proc.k] !in w.proc.rec && Needs(Pipeline(os)[w.proc.k], t)
    ensures Maker(os, t) in Run(Fresh(os), ls).proc.rec
  {
    var w := Run(Fresh(os), ls);
    RunRecords(Fresh(os), ls);
    OsKept(Fresh(os), ls);
    PrefixNext(os, w.proc.rec, w.proc.k);
    MadeBefore(os, w.proc.k, t);
    PrefixMember(os, w.proc.k, Position(Maker(os, t)));
    hide Pipeline, Needs, Maker, Position;
  }

  /** A stage is rolled back only when no stage that is still recorded needs what it made. */
  lemma NothingNeedsTheUndone(os: OS, ls: seq<Label>, s: Stage, t: Thing)
    requires var w := Run(Fresh(os), ls);
             && w.proc.Undoing? && !w.proc.done && 0 < w.proc.k <= |Pipeline(os)|
             && Pipeline(os)[w.proc.k - 1] in w.proc.rec && Maker(os, t) == Pipeline(os)[w.proc.k - 1]
    requires s in Run(Fresh(os), ls).proc.rec
    ensures !Needs(s, t)
  {
    var w := Run(Fresh(os), ls);
    RunRecords(Fresh(os), ls);
    OsKept(Fresh(os), ls);
    PrefixLast(os, w.proc.rec, w.proc.k);
    var i :| 0 <= i < w.proc.k && Pipeline(os)[i] == s;
    StagesDistinct(os);
    assert Position(Pipeline(os)[w.proc.k - 1]) == w.proc.k - 1;
    if Needs(s, t) {
      MadeBefore(os, i, t);
    }
  }
}
