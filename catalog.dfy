/**
 * ATTACK_DATA: the static catalog of simulated attacks, keyed by attack
 * identifier. Each entry holds the verdict, the prevention steps and the
 * ordered script of (severity, message) steps the producer walks.
 */
module Catalog {
  import opened Scoring

  datatype ScriptStep = ScriptStep(severity: string, message: string)

  datatype AttackInfo = AttackInfo(verdict: string, prevention: seq<string>, logs: seq<ScriptStep>)

  const BufferOverflow: AttackInfo := AttackInfo(
    "Critical buffer overflow detected and mitigated. Memory integrity compromised briefly.",
    ["Implement Bounds Checking: Ensure all memory writes are within allocated buffer limits.",
     "Use Safe Functions: Utilize secure alternatives to `strncpy`, `snprintf`, etc.",
     "Enable ASLR & DEP: Address Space Layout Randomization (ASLR) and Data Execution Prevention (DEP)."],
    [ScriptStep(Info, "Initializing buffer overflow simulation..."),
     ScriptStep(Info, "Attempting to write beyond allocated buffer in target process."),
     ScriptStep(Warning, "Memory allocation violation detected. System trying to recover."),
     ScriptStep(Error, "Stack frame overwritten. Return address manipulation detected."),
     ScriptStep(Critical, "Arbitrary code execution attempt prevented!"),
     ScriptStep(Info, "Buffer overflow exploit contained. System integrity check initiated."),
     ScriptStep(Info, "Simulation completed.")])

  const TrapdoorActivation: AttackInfo := AttackInfo(
    "Covert trapdoor activation attempt detected and neutralized. Backdoor access denied.",
    ["Supply Chain Security: Vet third-party components for hidden backdoors.",
     "Integrity Monitoring: Implement file integrity monitoring (FIM).",
     "Network Segmentation: Isolate critical systems to limit blast radius."],
    [ScriptStep(Info, "Activating trapdoor simulation..."),
     ScriptStep(Info, "Attempting to bypass authentication via hidden entry point."),
     ScriptStep(Warning, "Unusual network traffic originating from internal subnet."),
     ScriptStep(Error, "Suspicious API call detected from unprivileged user context."),
     ScriptStep(Critical, "Backdoor attempt identified and blocked at the kernel level!"),
     ScriptStep(Info, "Trapdoor access denied. Malicious connection terminated."),
     ScriptStep(Info, "Simulation completed.")])

  const PrivilegeEscalation: AttackInfo := AttackInfo(
    "Privilege escalation attempt identified and thwarted. Unauthorized access prevented.",
    ["Principle of Least Privilege: Grant minimal permissions.",
     "Patch Management: Keep OS and apps up-to-date.",
     "Secure Configuration: Disable unnecessary services."],
    [ScriptStep(Info, "Starting privilege escalation simulation..."),
     ScriptStep(Info, "Attempting to exploit a local vulnerability to gain root access."),
     ScriptStep(Warning, "Unauthorized access attempt to system critical files detected."),
     ScriptStep(Error, "Process running with elevated privileges without justification."),
     ScriptStep(Critical, "Kernel security module blocked privilege escalation!"),
     ScriptStep(Info, "Elevation attempt contained. Attacker's session terminated."),
     ScriptStep(Info, "Simulation completed.")])

  const KernelMemoryCorruption: AttackInfo := AttackInfo(
    "Kernel-level memory corruption attack detected and contained. System stability maintained.",
    ["Kernel Hardening: KASLR and SMEP/SMAP.",
     "Secure Drivers: Ensure drivers are signed and up-to-date.",
     "Memory Safety Languages: Use memory-safe languages for critical modules when possible.",
     "Regular Security Updates: Apply OS patches diligently."],
    [ScriptStep(Info, "Initiating kernel memory corruption simulation..."),
     ScriptStep(Info, "Attempting to corrupt kernel data structures via module injection."),
     ScriptStep(Warning, "Suspicious memory write operation detected in kernel space."),
     ScriptStep(Error, "Kernel panic avoided by advanced memory protection unit."),
     ScriptStep(Critical, "Malicious code attempting to write to read-only kernel memory!"),
     ScriptStep(Info, "Kernel memory integrity restored. Attack vector identified."),
     ScriptStep(Info, "System health check passed. No critical services affected."),
     ScriptStep(Info, "Simulation completed.")])

  const CachePoisoning: AttackInfo := AttackInfo(
    "DNS cache poisoning attack detected and remediated. Malicious resolution prevented.",
    ["DNSSEC Implementation: Deploy DNS Security Extensions (DNSSEC).",
     "Rate Limiting: Implement rate limiting on DNS queries.",
     "Randomized Source Ports: Use random source ports for DNS queries.",
     "Secure DNS Servers: Use reputable DNS resolvers."],
    [ScriptStep(Info, "Initiating cache poisoning simulation..."),
     ScriptStep(Info, "Sending crafted DNS responses to target resolver."),
     ScriptStep(Warning, "Abnormal number of DNS queries detected for critical domains."),
     ScriptStep(Error, "Spoofed DNS records injected into local cache!"),
     ScriptStep(Critical, "DNSSEC validation failed! Malicious entry purged from cache."),
     ScriptStep(Info, "Cache poisoning attempt neutralized. DNS services restored."),
     ScriptStep(Info, "Reviewing DNS server configuration for vulnerabilities."),
     ScriptStep(Info, "Simulation completed.")])

  const SideChannelTiming: AttackInfo := AttackInfo(
    "Side-channel timing leakage detected. Sensitive operations randomized.",
    ["Constant-time Algorithms: Use algorithms that doesn't leak timing info.",
     "Noise Injection: Add jitter to reduce signal-to-noise ratio.",
     "Hardware Countermeasures: Use hardware features to isolate sensitive tasks."],
    [ScriptStep(Info, "Starting side-channel timing analysis..."),
     ScriptStep(Warning, "Abnormal timing variations observed on crypto operations."),
     ScriptStep(Error, "High-resolution timer usage detected in untrusted process."),
     ScriptStep(Critical, "Potential key exfiltration channel identified and throttled!"),
     ScriptStep(Info, "Mitigation: Randomized scheduling enabled."),
     ScriptStep(Info, "Simulation completed.")])

  const SupplyChainPoisoning: AttackInfo := AttackInfo(
    "Supply chain compromise detected during dependency verification. Reverted to known-good build.",
    ["Artifact Signing: Verify signatures for third-party components.",
     "Reproducible Builds: Ensure builds are reproducible and auditable.",
     "Dependency Auditing: Regularly scan and pin versions."],
    [ScriptStep(Info, "Running dependency integrity checks..."),
     ScriptStep(Warning, "Unexpected checksum mismatch for vendor package."),
     ScriptStep(Error, "Unsigned module fetched from remote registry!"),
     ScriptStep(Critical, "Malicious payload in dependency identified and quarantined!"),
     ScriptStep(Info, "Restored pinned versions from secure cache."),
     ScriptStep(Info, "Simulation completed.")])

  /** The seven attack identifiers the dictionary knows. */
  const AttackTypes: set<string> := {"buffer_overflow", "trapdoor_activation", "privilege_escalation",
                                     "kernel_memory_corruption", "cache_poisoning", "side_channel_timing",
                                     "supply_chain_poisoning"}

  /** The catalog itself, as the dictionary maps identifiers to entries. */
  function AttackData(): (catalog: map<string, AttackInfo>)
    ensures catalog.Keys == AttackTypes
  {
    map["buffer_overflow" := BufferOverflow,
        "trapdoor_activation" := TrapdoorActivation,
        "privilege_escalation" := PrivilegeEscalation,
        "kernel_memory_corruption" := KernelMemoryCorruption,
        "cache_poisoning" := CachePoisoning,
        "side_channel_timing" := SideChannelTiming,
        "supply_chain_poisoning" := SupplyChainPoisoning]
  }

  predicate ScriptWellFormed(logs: seq<ScriptStep>) {
    forall i :: 0 <= i < |logs| ==> KnownSeverity(logs[i].severity)
  }

  /**
   * Every script of the catalog is non-empty, so total_steps > 0 wherever
   * the score is computed, and uses only the four known severities.
   */
  lemma AttackDataWellFormed()
    ensures |AttackData()| == 7
    ensures forall k :: k in AttackData() ==> AttackData()[k].logs != []
    ensures forall k :: k in AttackData() ==> ScriptWellFormed(AttackData()[k].logs)
  {
    assert BufferOverflow.logs != [] && ScriptWellFormed(BufferOverflow.logs);
    assert TrapdoorActivation.logs != [] && ScriptWellFormed(TrapdoorActivation.logs);
    assert PrivilegeEscalation.logs != [] && ScriptWellFormed(PrivilegeEscalation.logs);
    assert KernelMemoryCorruption.logs != [] && ScriptWellFormed(KernelMemoryCorruption.logs);
    assert CachePoisoning.logs != [] && ScriptWellFormed(CachePoisoning.logs);
    assert SideChannelTiming.logs != [] && ScriptWellFormed(SideChannelTiming.logs);
    assert SupplyChainPoisoning.logs != [] && ScriptWellFormed(SupplyChainPoisoning.logs);
  }
}
