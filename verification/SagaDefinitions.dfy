/** The nine saga definitions. */
module SagaDefinitions {
  import opened Options
  import opened SagaModel

  const MAX_ATTEMPTS := 5
  const STEP_TIMEOUT := 60_000

  function Undoable(name: StepName, command: string, undo: string, undoCommand: string): Step {
    Step(name, command, MAX_ATTEMPTS, STEP_TIMEOUT, Some(Compensation(undo, undoCommand)), false)
  }

  function Plain(name: StepName, command: string): Step {
    Step(name, command, MAX_ATTEMPTS, STEP_TIMEOUT, None, false)
  }

  function Irreversible(name: StepName, command: string): Step {
    Step(name, command, MAX_ATTEMPTS, STEP_TIMEOUT, None, true)
  }

  const CREATE_WORKSPACE: StepName := "create_workspace"
  const CREATE_OWNER_MEMBERSHIP: StepName := "create_owner_membership"
  const CONFIGURE_DEFAULTS: StepName := "configure_defaults"
  const SEND_WELCOME: StepName := "send_welcome"
  const RESERVE_CONVERSION: StepName := "reserve_conversion"
  const CREATE_CONTACT: StepName := "create_contact"
  const CREATE_DEAL: StepName := "create_deal"
  const MARK_LEAD_CONVERTED: StepName := "mark_lead_converted"
  const FREEZE_VERSION: StepName := "freeze_version"
  const EVALUATE_AUDIENCE_CONSENT: StepName := "evaluate_audience_consent"
  const RESERVE_PROVIDER_CAPACITY: StepName := "reserve_provider_capacity"
  const ENQUEUE_DELIVERIES: StepName := "enqueue_deliveries"
  const HOLD_SLOT: StepName := "hold_slot"
  const CREATE_EXTERNAL_EVENT: StepName := "create_external_event"
  const CONFIRM_APPOINTMENT: StepName := "confirm_appointment"
  const NOTIFY_ATTENDEES: StepName := "notify_attendees"
  const EXCHANGE_CREDENTIALS: StepName := "exchange_credentials"
  const VERIFY_PROVIDER: StepName := "verify_provider"
  const REGISTER_WEBHOOK: StepName := "register_webhook"
  const ACTIVATE_CONNECTION: StepName := "activate_connection"
  const CONFIRM_PAYMENT: StepName := "confirm_payment"
  const ACTIVATE_ENTITLEMENTS: StepName := "activate_entitlements"
  const ISSUE_INVOICE: StepName := "issue_invoice"
  const DISABLE_ACCESS: StepName := "disable_access"
  const DISCONNECT_INTEGRATIONS: StepName := "disconnect_integrations"
  const DELETE_WORKSPACE_DATA: StepName := "delete_workspace_data"
  const FINALIZE_DELETION: StepName := "finalize_deletion"
  const VERIFY_REQUEST: StepName := "verify_request"
  const PLACE_PROCESSING_RESTRICTION: StepName := "place_processing_restriction"
  const DELETE_SUBJECT_DATA: StepName := "delete_subject_data"
  const WRITE_TOMBSTONE: StepName := "write_tombstone"
  const FETCH_SOURCE: StepName := "fetch_source"
  const SCAN_CONTENT: StepName := "scan_content"
  const EXTRACT_CHUNKS: StepName := "extract_chunks"
  const CREATE_EMBEDDINGS: StepName := "create_embeddings"
  const PUBLISH_INDEX: StepName := "publish_index"

  const WORKSPACE_PROVISIONING := Definition("workspace_provisioning", 900_000, [
      Undoable(CREATE_WORKSPACE, "workspaces.provision", "remove_workspace", "workspaces.deprovision"),
      Undoable(CREATE_OWNER_MEMBERSHIP, "memberships.create_owner", "remove_owner_membership", "memberships.remove_owner"),
      Plain(CONFIGURE_DEFAULTS, "workspace_settings.initialize"),
      Irreversible(SEND_WELCOME, "notifications.workspace_welcome")])

  const LEAD_CONVERSION := Definition("lead_conversion", 600_000, [
      Undoable(RESERVE_CONVERSION, "leads.reserve_conversion", "release_conversion", "leads.release_conversion"),
      Undoable(CREATE_CONTACT, "contacts.create_from_lead", "archive_contact", "contacts.archive_conversion"),
      Undoable(CREATE_DEAL, "deals.create_from_lead", "cancel_deal", "deals.cancel_conversion"),
      Plain(MARK_LEAD_CONVERTED, "leads.mark_converted")])

  const CAMPAIGN_LAUNCH := Definition("campaign_launch", 1_800_000, [
      Undoable(FREEZE_VERSION, "campaigns.freeze_version", "unfreeze_version", "campaigns.unfreeze_version"),
      Plain(EVALUATE_AUDIENCE_CONSENT, "consent.evaluate_campaign_audience"),
      Undoable(RESERVE_PROVIDER_CAPACITY, "campaigns.reserve_provider_capacity", "release_provider_capacity", "campaigns.release_provider_capacity"),
      Irreversible(ENQUEUE_DELIVERIES, "campaigns.enqueue_deliveries")])

  const APPOINTMENT_EXTERNAL_CALENDAR := Definition("appointment_external_calendar", 600_000, [
      Undoable(HOLD_SLOT, "appointments.hold_slot", "release_slot", "appointments.release_slot"),
      Undoable(CREATE_EXTERNAL_EVENT, "calendar.create_external_event", "delete_external_event", "calendar.delete_external_event"),
      Undoable(CONFIRM_APPOINTMENT, "appointments.confirm", "cancel_appointment", "appointments.cancel"),
      Irreversible(NOTIFY_ATTENDEES, "notifications.appointment_confirmation")])

  const INTEGRATION_CONNECTION := Definition("integration_connection", 600_000, [
      Plain(EXCHANGE_CREDENTIALS, "integrations.exchange_credentials"),
      Plain(VERIFY_PROVIDER, "integrations.verify_provider"),
      Undoable(REGISTER_WEBHOOK, "integrations.register_webhook", "remove_webhook", "integrations.remove_webhook"),
      Undoable(ACTIVATE_CONNECTION, "integrations.activate_connection", "disable_connection", "integrations.disable_connection")])

  const SUBSCRIPTION_ACTIVATION := Definition("subscription_activation", 900_000, [
      Irreversible(CONFIRM_PAYMENT, "billing.confirm_payment"),
      Undoable(ACTIVATE_ENTITLEMENTS, "billing.activate_entitlements", "suspend_entitlements", "billing.suspend_entitlements"),
      Irreversible(ISSUE_INVOICE, "billing.issue_invoice")])

  const WORKSPACE_DELETION := Definition("workspace_deletion", 86_400_000, [
      Undoable(DISABLE_ACCESS, "workspaces.disable_access", "restore_access", "workspaces.restore_access"),
      Plain(DISCONNECT_INTEGRATIONS, "integrations.disconnect_workspace"),
      Irreversible(DELETE_WORKSPACE_DATA, "compliance.delete_workspace_data"),
      Irreversible(FINALIZE_DELETION, "workspaces.finalize_deletion")])

  const PRIVACY_DELETION_REQUEST := Definition("privacy_deletion_request", 86_400_000, [
      Plain(VERIFY_REQUEST, "compliance.verify_deletion_request"),
      Undoable(PLACE_PROCESSING_RESTRICTION, "consent.restrict_processing", "remove_processing_restriction", "consent.remove_processing_restriction"),
      Irreversible(DELETE_SUBJECT_DATA, "compliance.delete_subject_data"),
      Irreversible(WRITE_TOMBSTONE, "compliance.write_deletion_tombstone")])

  const KNOWLEDGE_SOURCE_INGESTION := Definition("knowledge_source_ingestion", 3_600_000, [
      Undoable(FETCH_SOURCE, "knowledge.fetch_source", "delete_fetched_source", "knowledge.delete_fetched_source"),
      Plain(SCAN_CONTENT, "files.scan_knowledge_source"),
      Undoable(EXTRACT_CHUNKS, "knowledge.extract_chunks", "delete_chunks", "knowledge.delete_chunks"),
      Undoable(CREATE_EMBEDDINGS, "knowledge.create_embeddings", "delete_embeddings", "knowledge.delete_embeddings"),
      Undoable(PUBLISH_INDEX, "knowledge.publish_index", "unpublish_index", "knowledge.unpublish_index")])

  const SAGA_DEFINITIONS: seq<Definition> := [
    WORKSPACE_PROVISIONING,
    LEAD_CONVERSION,
    CAMPAIGN_LAUNCH,
    APPOINTMENT_EXTERNAL_CALENDAR,
    INTEGRATION_CONNECTION,
    SUBSCRIPTION_ACTIVATION,
    WORKSPACE_DELETION,
    PRIVACY_DELETION_REQUEST,
    KNOWLEDGE_SOURCE_INGESTION]

  function Find(definitions: seq<Definition>, sagaType: string): (found: Option<Definition>)
    ensures found.Some? ==> found.value in definitions && found.value.sagaType == sagaType
    ensures found.None? ==> forall i :: 0 <= i < |definitions| ==> definitions[i].sagaType != sagaType
  {
    if definitions == [] then None
    else if definitions[0].sagaType == sagaType then Some(definitions[0])
    else Find(definitions[1..], sagaType)
  }

  function SagaDefinition(sagaType: string): Option<Definition> {
    Find(SAGA_DEFINITIONS, sagaType)
  }

  predicate Alike(step: Step) {
    step.maxAttempts == 5 && step.timeoutMs == 60_000 && (step.irreversible ==> step.compensation.None?)
  }

  predicate AllAlike(definition: Definition) { forall step <- definition.steps :: Alike(step) }

  lemma WorkspaceProvisioningIsWellFormed() ensures WellFormed(WORKSPACE_PROVISIONING) && AllAlike(WORKSPACE_PROVISIONING) {}

  lemma LeadConversionIsWellFormed() ensures WellFormed(LEAD_CONVERSION) && AllAlike(LEAD_CONVERSION) {}

  lemma CampaignLaunchIsWellFormed() ensures WellFormed(CAMPAIGN_LAUNCH) && AllAlike(CAMPAIGN_LAUNCH) {}

  lemma AppointmentExternalCalendarIsWellFormed() ensures WellFormed(APPOINTMENT_EXTERNAL_CALENDAR) && AllAlike(APPOINTMENT_EXTERNAL_CALENDAR) {}

  lemma IntegrationConnectionIsWellFormed() ensures WellFormed(INTEGRATION_CONNECTION) && AllAlike(INTEGRATION_CONNECTION) {}

  lemma SubscriptionActivationIsWellFormed() ensures WellFormed(SUBSCRIPTION_ACTIVATION) && AllAlike(SUBSCRIPTION_ACTIVATION) {}

  lemma WorkspaceDeletionIsWellFormed() ensures WellFormed(WORKSPACE_DELETION) && AllAlike(WORKSPACE_DELETION) {}

  lemma PrivacyDeletionRequestIsWellFormed() ensures WellFormed(PRIVACY_DELETION_REQUEST) && AllAlike(PRIVACY_DELETION_REQUEST) {}

  lemma KnowledgeSourceIngestionIsWellFormed() ensures WellFormed(KNOWLEDGE_SOURCE_INGESTION) && AllAlike(KNOWLEDGE_SOURCE_INGESTION) {}

  /** The operations of a saga issue commands of distinct names. */
  predicate DistinctCommands(definition: Definition) {
    var steps := definition.steps;
    && (forall i, j :: 0 <= i < j < |steps| ==>
          && steps[i].command != steps[j].command
          && (steps[i].compensation.Some? && steps[j].compensation.Some? ==>
                CommandName(steps[i], true) != CommandName(steps[j], true)))
    && (forall i, j :: 0 <= i < |steps| && 0 <= j < |steps| && steps[j].compensation.Some? ==>
          CommandName(steps[i], false) != CommandName(steps[j], true))
  }

  lemma WorkspaceCommands() ensures DistinctCommands(WORKSPACE_PROVISIONING) {}

  lemma LeadCommands() ensures DistinctCommands(LEAD_CONVERSION) {}

  lemma CampaignCommands() ensures DistinctCommands(CAMPAIGN_LAUNCH) {}

  lemma AppointmentCommands() ensures DistinctCommands(APPOINTMENT_EXTERNAL_CALENDAR) {}

  lemma IntegrationCommands() ensures DistinctCommands(INTEGRATION_CONNECTION) {}

  lemma SubscriptionCommands() ensures DistinctCommands(SUBSCRIPTION_ACTIVATION) {}

  lemma DeletionCommands() ensures DistinctCommands(WORKSPACE_DELETION) {}

  lemma PrivacyCommands() ensures DistinctCommands(PRIVACY_DELETION_REQUEST) {}

  lemma KnowledgeCommands() ensures DistinctCommands(KNOWLEDGE_SOURCE_INGESTION) {}

  /** In every definition each step and each compensation has a command of its own, so that a handler of one never
      takes part in another. */
  lemma EveryCommandIsItsOwn(sagaType: string)
    requires SagaDefinition(sagaType).Some?
    ensures DistinctCommands(SagaDefinition(sagaType).value)
  {
    WorkspaceCommands();
    LeadCommands();
    CampaignCommands();
    AppointmentCommands();
    IntegrationCommands();
    SubscriptionCommands();
    DeletionCommands();
    PrivacyCommands();
    KnowledgeCommands();
    hide DistinctCommands;
  }

  const SAGA_TYPES := [
    "workspace_provisioning", "lead_conversion", "campaign_launch", "appointment_external_calendar",
    "integration_connection", "subscription_activation", "workspace_deletion", "privacy_deletion_request",
    "knowledge_source_ingestion"]

  lemma {:induction false} FindsIff(definitions: seq<Definition>, types: seq<string>, sagaType: string)
    requires |definitions| == |types| && forall i :: 0 <= i < |types| ==> definitions[i].sagaType == types[i]
    ensures Find(definitions, sagaType).Some? <==> sagaType in types
  {
    if types != [] {
      FindsIff(definitions[1..], types[1..], sagaType);
      assert types == [types[0]] + types[1..];
    }
  }

  /** Just the nine types of saga that may be asked for have a definition. */
  lemma NineTypes(sagaType: string)
    ensures SagaDefinition(sagaType).Some? <==> sagaType in SAGA_TYPES
    ensures SagaDefinition(sagaType).Some? ==> SagaDefinition(sagaType).value.sagaType == sagaType
  {
    FindsIff(SAGA_DEFINITIONS, SAGA_TYPES, sagaType);
    hide Find;
  }

  /** Every step of every definition has five attempts and a minute for each, and none that is irreversible is
      compensated. */
  lemma EveryStepHasAMinute(sagaType: string)
    requires SagaDefinition(sagaType).Some?
    ensures AllAlike(SagaDefinition(sagaType).value)
  {
    WorkspaceProvisioningIsWellFormed();
    LeadConversionIsWellFormed();
    CampaignLaunchIsWellFormed();
    AppointmentExternalCalendarIsWellFormed();
    IntegrationConnectionIsWellFormed();
    SubscriptionActivationIsWellFormed();
    WorkspaceDeletionIsWellFormed();
    PrivacyDeletionRequestIsWellFormed();
    KnowledgeSourceIngestionIsWellFormed();
    hide Find, WellFormed, AllAlike;
  }

  /** Every definition a saga can be started with is well formed, so the theorems about well-formed
      definitions hold of all nine sagas. */
  lemma EveryDefinitionIsWellFormed(sagaType: string)
    requires SagaDefinition(sagaType).Some?
    ensures WellFormed(SagaDefinition(sagaType).value)
  {
    WorkspaceProvisioningIsWellFormed();
    LeadConversionIsWellFormed();
    CampaignLaunchIsWellFormed();
    AppointmentExternalCalendarIsWellFormed();
    IntegrationConnectionIsWellFormed();
    SubscriptionActivationIsWellFormed();
    WorkspaceDeletionIsWellFormed();
    PrivacyDeletionRequestIsWellFormed();
    KnowledgeSourceIngestionIsWellFormed();
  }
}
