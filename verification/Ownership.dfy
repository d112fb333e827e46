/** What the graph reconciler asks of an ownership identity. The concrete tag
    encoding that answers these questions is in module OwnershipTags. */
module Ownership {
  datatype Option<+T> = None | Some(value: T)

  /** The resource roles recorded in ownership metadata. */
  datatype Role =
    | LoadBalancerRole | ListenerRole | FloatingIPRole
    | PoolRole | MemberRole | MonitorRole
    | PolicyExact | PolicyPrefix
    | RulePath | RuleHost

  type Tags = seq<string>

  /** One identity's view of ownership metadata: what it matches exactly, what
      it merely discovers by name, and what it writes on resources it creates. */
  datatype Owner = Owner(
    exactGateway: (Tags, Role) -> bool,
    discoversGateway: (Tags, Role) -> bool,
    exactRoute: (Tags, Role) -> bool,
    discoversRoute: (Tags, Role) -> bool,
    listsLoadBalancer: Tags -> bool,
    matchesDescription: string -> bool,
    gatewayTags: Role -> Tags,
    routeTags: Role -> Tags,
    description: string)

  /** The laws the tag encoding obeys for every valid route identity. */
  ghost predicate LawfulOwner(o: Owner)
  {
    LawfulGatewayOwner(o) &&
    (forall tags, role :: o.exactRoute(tags, role) ==> o.exactGateway(tags, role) && o.discoversRoute(tags, role)) &&
    (forall role :: o.exactRoute(o.routeTags(role), role)) &&
    (forall role, other :: role != other ==>
      !o.exactRoute(o.routeTags(role), other) && !o.discoversRoute(o.routeTags(role), other))
  }

  /** The laws that need only the Gateway part of an identity. */
  ghost predicate LawfulGatewayOwner(o: Owner)
  {
    (forall tags, role :: o.exactGateway(tags, role) ==> o.discoversGateway(tags, role)) &&
    (forall tags :: o.exactGateway(tags, LoadBalancerRole) ==> o.listsLoadBalancer(tags)) &&
    (forall role :: o.exactGateway(o.gatewayTags(role), role)) &&
    o.matchesDescription(o.description)
  }
}
