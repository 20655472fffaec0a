/**
 * The quick-action panel (src/components/ui/QuickActionPanel.jsx): the
 * actions offered on each route, their split into urgent and regular
 * actions, the mobile truncation and the desktop panel's expanded flag.
 */
module QuickActions {
  import opened Lists

  datatype Action = Action(id: string, title: string, variant: string, urgent: bool)

  const CallActions: seq<Action> := [
    Action("escalate", "Emergency Escalation", "destructive", true),
    Action("transfer", "Transfer Call", "outline", false),
    Action("mute", "Mute Call", "secondary", false),
    Action("record", "Start Recording", "outline", false)
  ]

  const GuidanceActions: seq<Action> := [
    Action("emergency-dispatch", "Emergency Dispatch", "destructive", true),
    Action("medical-consult", "Medical Consult", "primary", false),
    Action("protocol-switch", "Switch Protocol", "outline", false),
    Action("send-instructions", "Send Instructions", "success", false)
  ]

  const DispatchActions: seq<Action> := [
    Action("priority-dispatch", "Priority Override", "destructive", true),
    Action("additional-units", "Request Backup", "warning", false),
    Action("update-location", "Update Location", "outline", false),
    Action("contact-unit", "Contact Unit", "primary", false)
  ]

  const DefaultActions: seq<Action> := [
    Action("emergency", "Emergency Alert", "destructive", true)
  ]

  /** `getContextualActions`: chosen by the exact pathname. */
  function ContextualActions(pathname: string): (r: seq<Action>)
    ensures pathname !in ["/emergency-call-interface", "/first-aid-guidance", "/ambulance-dispatch"] ==>
      |r| == 1 && r[0].id == "emergency"
  {
    if pathname == "/emergency-call-interface" then CallActions
    else if pathname == "/first-aid-guidance" then GuidanceActions
    else if pathname == "/ambulance-dispatch" then DispatchActions
    else DefaultActions
  }

  function UrgentActions(actions: seq<Action>): seq<Action>
  {
    Filter(actions, (a: Action) => a.urgent)
  }

  function RegularActions(actions: seq<Action>): seq<Action>
  {
    Filter(actions, (a: Action) => !a.urgent)
  }

  /** Every action is either urgent or regular, never both, and none is lost or repeated. */
  lemma UrgentAndRegularPartition(actions: seq<Action>)
    ensures multiset(UrgentActions(actions)) + multiset(RegularActions(actions)) == multiset(actions)
    ensures forall a :: a in UrgentActions(actions) ==> a.urgent
    ensures forall a :: a in RegularActions(actions) ==> !a.urgent
  {
    FilterPartition(actions, (a: Action) => a.urgent, (a: Action) => !a.urgent);
  }

  /**
   * On every route the first action is the only urgent one, and the regular
   * actions are the rest in table order.
   */
  lemma OneUrgentActionPerRoute(pathname: string)
    ensures var actions := ContextualActions(pathname);
      && UrgentActions(actions) == [actions[0]]
      && RegularActions(actions) == actions[1..]
  {
    var actions := ContextualActions(pathname);
    FilterKeepsOnlyHead(actions, (a: Action) => a.urgent);
    FilterKeepsAll(actions[1..], (a: Action) => !a.urgent);
  }

  /** `regularActions.slice(0, 3)` on small screens. */
  function MobileRegularActions(actions: seq<Action>): (r: seq<Action>)
    ensures |r| <= 3 && r <= RegularActions(actions)
    ensures |RegularActions(actions)| <= 3 ==> r == RegularActions(actions)
  {
    var regular := RegularActions(actions);
    if |regular| <= 3 then regular else regular[..3]
  }

  /** No route has more than three regular actions, so the mobile view hides none of them. */
  lemma MobileShowsEveryAction(pathname: string)
    ensures MobileRegularActions(ContextualActions(pathname)) == ContextualActions(pathname)[1..]
  {
    OneUrgentActionPerRoute(pathname);
  }

  class DesktopPanel {
    var isExpanded: bool

    constructor ()
      ensures !isExpanded
    {
      isExpanded := false;
    }

    /** The round trigger button. */
    method Toggle()
      modifies this
      ensures isExpanded == !old(isExpanded)
    {
      isExpanded := !isExpanded;
    }

    /** The close button and the overlay. */
    method Close()
      modifies this
      ensures !isExpanded
    {
      isExpanded := false;
    }

    /** Clicking an urgent or regular action runs it (a log line only) and collapses the panel. */
    method ClickAction(actionId: string)
      modifies this
      ensures !isExpanded
    {
      isExpanded := false;
    }
  }
}
