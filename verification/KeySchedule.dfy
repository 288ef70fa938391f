/** The key schedule and transcript hashes (mls/keyschedule; section 8 of RFC 9420).
    No pre-shared keys: psk_secret is the all-zero vector. */
module KeySchedule {
  import opened Symbolic

  datatype EpochSecrets = EpochSecrets(
    joiner: Term, welcome: Term, epoch: Term, senderData: Term, encryption: Term, exporter: Term,
    external: Term, confirmation: Term, membership: Term, resumption: Term, authenticator: Term, init: Term)

  function JoinerSecret(initSecret: Term, commitSecret: Term, gc: GroupContext): Term {
    Expanded(Extracted(initSecret, commitSecret), JoinerLabel, gc)
  }

  function WelcomeSecret(joiner: Term): Term {
    Derived(Extracted(joiner, Zeros), WelcomeLabel)
  }

  function EpochSecretsFromJoiner(joiner: Term, gc: GroupContext): EpochSecrets {
    var member := Extracted(joiner, Zeros);
    var epoch := Expanded(member, EpochLabel, gc);
    EpochSecrets(
      joiner, WelcomeSecret(joiner), epoch, Derived(epoch, SenderDataLabel), Derived(epoch, EncryptionLabel),
      Derived(epoch, ExporterLabel), Derived(epoch, ExternalLabel), Derived(epoch, ConfirmLabel),
      Derived(epoch, MembershipLabel), Derived(epoch, ResumptionLabel), Derived(epoch, AuthenticationLabel),
      Derived(epoch, InitLabel))
  }

  function DeriveEpochSecrets(initSecret: Term, commitSecret: Term, gc: GroupContext): EpochSecrets {
    EpochSecretsFromJoiner(JoinerSecret(initSecret, commitSecret, gc), gc)
  }

  function ConfirmationTag(es: EpochSecrets, confirmed: Term): Term {
    Mac(es.confirmation, confirmed)
  }

  /** Two members agree on the confirmation tag of a new epoch iff they fed the schedule the same
      init secret, commit secret and group context. */
  lemma TagBindsInputs(init: Term, init': Term, commit: Term, commit': Term, gc: GroupContext, gc': GroupContext,
                       confirmed: Term)
    ensures ConfirmationTag(DeriveEpochSecrets(init, commit, gc), confirmed)
              == ConfirmationTag(DeriveEpochSecrets(init', commit', gc'), confirmed)
            <==> init == init' && commit == commit' && gc == gc'
  {
    var j, j' := JoinerSecret(init, commit, gc), JoinerSecret(init', commit', gc');
    var e, e' := EpochSecretsFromJoiner(j, gc), EpochSecretsFromJoiner(j', gc');
    if ConfirmationTag(e, confirmed) == ConfirmationTag(e', confirmed) {
      assert e.confirmation == e'.confirmation;
      assert e.epoch == e'.epoch;
      assert Extracted(j, Zeros) == Extracted(j', Zeros);
    }
  }
}
