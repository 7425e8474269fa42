/** Which services are forwarded automatically: internal/tunnel/policy.go. */
module Policy {
  import opened Services
  import opened PortSets

  datatype RemoteBind = BindAny | BindLoopback

  datatype Skip =
    | NotSkipped
    | Preexisting
    | BelowMin
    | AboveMax
    | Excluded
    | NotIncluded
    | NotLoopback
    | Paused
    | SwitchedOff
  {
    /** Ruled out by explicit configuration, so not worth a row. */
    predicate Filtered() {
      BelowMin? || AboveMax? || Excluded? || NotIncluded? || NotLoopback?
    }
  }

  datatype Policy = Policy(
    minPort: int,
    maxPort: int,
    included: PortSet,
    excluded: PortSet,
    remoteBind: RemoteBind,
    existing: bool,
    paused: bool)
  {
    function Eval(ip: IpRules, svc: Service, preexisting: bool): Skip {
      if Contains(excluded, svc.port) then Excluded
      else if !Contains(included, svc.port) && included != [] then NotIncluded
      else if !Contains(included, svc.port) && svc.port < minPort then BelowMin
      else if !Contains(included, svc.port) && svc.port > maxPort then AboveMax
      else if !Contains(included, svc.port) && remoteBind.BindLoopback? && !LoopbackOnly(ip, svc) then NotLoopback
      else if !Contains(included, svc.port) && preexisting && !existing then Preexisting
      else if paused then Paused
      else NotSkipped
    }

    /** Naming a port beats the window, the bind rule and the pre-existing rule; it does not
        beat an exclusion or a pause. */
    lemma EvalForwards(ip: IpRules, svc: Service, preexisting: bool)
      ensures Eval(ip, svc, preexisting).NotSkipped? <==>
              && !paused
              && !Contains(excluded, svc.port)
              && (|| Contains(included, svc.port)
                  || (&& included == []
                      && minPort <= svc.port <= maxPort
                      && (remoteBind.BindAny? || LoopbackOnly(ip, svc))
                      && (existing || !preexisting)))
    {
    }

    /** A filtered reason speaks of the configured sets, window and bind rule alone: neither the pause,
        nor the rule about existing services, nor whether this is one, makes a row filtered or not. */
    lemma FilteredIsConfiguration(ip: IpRules, svc: Service, preexisting: bool)
      ensures Eval(ip, svc, preexisting).Filtered() <==>
              || Contains(excluded, svc.port)
              || (&& !Contains(included, svc.port)
                  && (|| included != []
                      || !(minPort <= svc.port <= maxPort)
                      || (remoteBind.BindLoopback? && !LoopbackOnly(ip, svc))))
      ensures forall pause, exist, pre ::
                this.(paused := pause, existing := exist).Eval(ip, svc, pre).Filtered()
                <==> Eval(ip, svc, preexisting).Filtered()
    {
    }

    /** Which of the filtered reasons it is: exclusion first, then the inclusion list, the window and the bind rule. */
    lemma FilterReasons(ip: IpRules, svc: Service, preexisting: bool)
      ensures var skip := Eval(ip, svc, preexisting);
              var (outside, listed) := (Contains(excluded, svc.port), Contains(included, svc.port));
              && (skip == Excluded <==> outside)
              && (skip == NotIncluded <==> !outside && !listed && included != [])
              && (skip == BelowMin <==> !outside && included == [] && svc.port < minPort)
              && (skip == AboveMax <==> !outside && included == [] && minPort <= svc.port && maxPort < svc.port)
              && (skip == NotLoopback <==>
                    !outside && included == [] && minPort <= svc.port <= maxPort && remoteBind == BindLoopback
                    && (svc.binds == [] || exists b | b in svc.binds :: !ip.loopback(Trim(b.addr))))
    {
    }

    /** What stays visible and is not forwarded: existing services, unless wanted, and then, with the
        others, whatever a pause holds back. */
    lemma VisibleSkips(ip: IpRules, svc: Service, preexisting: bool)
      requires !Eval(ip, svc, preexisting).Filtered()
      ensures Eval(ip, svc, preexisting).Preexisting? <==>
              preexisting && !existing && !Contains(included, svc.port)
      ensures Eval(ip, svc, preexisting).Paused? <==>
              paused && !(preexisting && !existing && !Contains(included, svc.port))
    {
    }
  }
}
