/**
 Action steps and the two policy gates that every step passes before it is dispatched.
 */
module Policy {
  import opened Options

  datatype Channel = Email | Crm | Sms | OtherChannel(name: string)

  datatype ActionType = SendEmail | UpdateCrm | SendSms | OtherAction(name: string)

  datatype StepStatus = Draft | PendingApproval | Approved | Rejected | Executed | Failed

  /** What the gates look for in the text of a step. */
  datatype Content = Content(
    note: string,
    prohibitedClaim: bool,
    legalClaim: bool,
    uncertain: bool,
    bodyLength: nat)

  datatype Reason = ProhibitedClaim | LegalBoundary | UncertainLanguage | SmsTooLong

  datatype Error =
    | OutputPolicyViolation(reasons: seq<Reason>)
    | ChannelNotAllowed
    | RiskTierBlocked
    | UnsupportedStep
    | AdapterFailed

  /** `execution_result`: empty until a first receipt. */
  datatype Receipt = NoReceipt | Success | Failure(error: Error)

  datatype ActionStep = ActionStep(
    id: string,
    order: int,
    channel: Channel,
    action: ActionType,
    content: Content,
    status: StepStatus,
    retryCount: nat,
    receipt: Receipt,
    lastError: Option<Error>)
  {
    /** Executed with a successful receipt: the only state in which the agent skips the step. */
    predicate Done() {
      status == Executed && receipt == Success
    }

    function WithStatus(s: StepStatus): ActionStep {
      this.(status := s)
    }
  }

  /** The columns that executing, approving and rejecting never change. */
  predicate SameStep(s: ActionStep, t: ActionStep) {
    s.id == t.id && s.order == t.order && s.channel == t.channel && s.action == t.action && s.content == t.content
  }

  datatype Tier = Low | Medium | High | OtherTier(name: string)

  /** What one execution of the agent is given besides the plan. */
  datatype Context = Context(deal: string, allowedChannels: set<Channel>, maxTier: Tier, autonomous: bool)

  function RiskLevel(tier: Tier): nat {
    match tier
    case Low => 1
    case Medium => 2
    case High => 3
    case OtherTier(_) => 3
  }

  function ChannelTier(channel: Channel): Tier {
    match channel
    case Email => Low
    case Crm => Low
    case Sms => Medium
    case OtherChannel(_) => High
  }

  function OutputReasons(step: ActionStep, ctx: Context): seq<Reason> {
    var strict := ctx.maxTier in {Medium, High};
    (if step.content.prohibitedClaim then [ProhibitedClaim] else [])
    + (if step.content.legalClaim then [LegalBoundary] else [])
    + (if ctx.autonomous && strict && step.content.uncertain then [UncertainLanguage] else [])
    + (if step.channel == Sms && strict && step.content.bodyLength > 240 then [SmsTooLong] else [])
  }

  /** The first gate that blocks the step: generated output, allowed channels, risk tier. */
  function Block(step: ActionStep, ctx: Context): Option<Error> {
    if OutputReasons(step, ctx) != [] then Some(OutputPolicyViolation(OutputReasons(step, ctx)))
    else if step.channel !in ctx.allowedChannels then Some(ChannelNotAllowed)
    else if RiskLevel(ChannelTier(step.channel)) > RiskLevel(ctx.maxTier) then Some(RiskTierBlocked)
    else None
  }

  predicate Allowed(step: ActionStep, ctx: Context) {
    Block(step, ctx).None?
  }

  /** The (channel, action) pairs that have an adapter. */
  predicate Supported(step: ActionStep) {
    || (step.channel == Email && step.action == SendEmail)
    || (step.channel == Crm && step.action == UpdateCrm)
    || (step.channel == Sms && step.action == SendSms)
  }

  // ----- The two gates, by the fields of the step and the run -----

  /** Under a medium or a high cap the text is tested strictly. */
  predicate Strict(ctx: Context) {
    ctx.maxTier == Medium || ctx.maxTier == High
  }

  /** What the policy is to let through: clean text, a listed channel, and a cap that reaches its tier. */
  predicate Passes(step: ActionStep, ctx: Context) {
    && !step.content.prohibitedClaim
    && !step.content.legalClaim
    && !(step.content.uncertain && ctx.autonomous && Strict(ctx))
    && !(step.channel == Sms && step.content.bodyLength > 240 && Strict(ctx))
    && step.channel in ctx.allowedChannels
    && (step.channel == Email || step.channel == Crm
        || (step.channel == Sms && ctx.maxTier != Low)
        || (step.channel.OtherChannel? && (ctx.maxTier == High || ctx.maxTier.OtherTier?)))
  }

  /** A step passes the gates exactly if it is what the policy is to let through. */
  lemma AllowedExactly(step: ActionStep, ctx: Context)
    ensures Allowed(step, ctx) <==> Passes(step, ctx)
  {
  }

  /** Where a reason is listed. */
  function Rank(reason: Reason): nat {
    match reason
    case ProhibitedClaim => 1
    case LegalBoundary => 2
    case UncertainLanguage => 3
    case SmsTooLong => 4
  }

  /** Each reason is given exactly if its test fails, once, in this order. */
  lemma ReasonsExactly(step: ActionStep, ctx: Context)
    ensures var reasons := OutputReasons(step, ctx);
            && (ProhibitedClaim in reasons <==> step.content.prohibitedClaim)
            && (LegalBoundary in reasons <==> step.content.legalClaim)
            && (UncertainLanguage in reasons <==> step.content.uncertain && ctx.autonomous && Strict(ctx))
            && (SmsTooLong in reasons <==> step.channel == Sms && step.content.bodyLength > 240 && Strict(ctx))
            && forall i, j :: 0 <= i < j < |reasons| ==> Rank(reasons[i]) < Rank(reasons[j])
  {
  }

  /** The error of a step that does not pass: its text comes first, then the channel, then the tier. */
  lemma BlockExactly(step: ActionStep, ctx: Context)
    ensures Passes(step, ctx) <==> Block(step, ctx).None?
    ensures !Passes(step, ctx) ==>
              var unclean := || step.content.prohibitedClaim || step.content.legalClaim
                             || (step.content.uncertain && ctx.autonomous && Strict(ctx))
                             || (step.channel == Sms && step.content.bodyLength > 240 && Strict(ctx));
              Block(step, ctx) == Some(
                if unclean then OutputPolicyViolation(OutputReasons(step, ctx))
                else if step.channel !in ctx.allowedChannels then ChannelNotAllowed
                else RiskTierBlocked)
  {
  }

  /** The one action of each channel that has an adapter. */
  predicate HasAdapter(channel: Channel, action: ActionType) {
    match channel
    case Email => action == SendEmail
    case Crm => action == UpdateCrm
    case Sms => action == SendSms
    case OtherChannel(_) => false
  }

  lemma SupportedExactly(step: ActionStep)
    ensures Supported(step) <==> HasAdapter(step.channel, step.action)
  {
  }

  /** Raising the tier cap from low to medium can block a step: exactly uncertain language in autonomous runs. */
  lemma RaisingTheCapBlocks(step: ActionStep, ctx: Context)
    requires Allowed(step, ctx.(maxTier := Low))
    ensures Allowed(step, ctx.(maxTier := Medium)) <==> !(ctx.autonomous && step.content.uncertain)
  {
  }

  /** From medium upwards a higher cap blocks nothing more. */
  lemma MediumIsMonotone(step: ActionStep, ctx: Context)
    ensures Allowed(step, ctx.(maxTier := Medium)) ==> Allowed(step, ctx.(maxTier := High))
    ensures Allowed(step, ctx.(maxTier := High))
       ==> (Allowed(step, ctx.(maxTier := Medium)) <==> ChannelTier(step.channel) != High)
  {
  }
}
