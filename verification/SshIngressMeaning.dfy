/** What the boot id in a reply is, and which replies keep or drop the rule, in literal terms. */
module SshIngressMeaning {
  import opened PyJson
  import opened Texts
  import opened SshIngress

  /** The output without the space around it, if the command succeeded and that is one line of at most 80 characters. */
  lemma BootTextIs(r: Reply, core: string)
    requires Core(r.text, core)
    ensures BootText(r) == if r.ok && |core| <= 80 && '\n' !in core then core else ""
  {
    StripIff(r.text, core);
  }

  /** Every output has such a core, so the boot id is always decided. */
  lemma BootTextDecided(r: Reply)
    ensures exists core :: Core(r.text, core)
  {
    StripIsCore(r.text);
  }

  /** Only an authorize adds a rule and only a revoke drops one, each exactly if it succeeded or took effect all the same. */
  lemma OpenAfterIff(open: set<Rule>, a: Action, r: Reply, rule: Rule)
    ensures rule in OpenAfter(open, a, r) <==>
            || (a == Authorize(rule) && (r.ok || r.effect))
            || (rule in open && !(a == Revoke(rule) && (r.ok || r.notFound || r.effect)))
  {
  }

  /** The states in which the quiet time gives up. */
  lemma StoppedIff(state: string)
    ensures Stopped(state) <==> Leaving(state)
  {
  }
}
