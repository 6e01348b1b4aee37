/** The persistence layer as the route handlers see it: one in-memory table per model of
    the schema. The handlers that write append to or update these fields in place; the
    unique constraints of the schema (user email, setting key) are stated as predicates. */
module Store {
  import opened Common
  import Pricing

  class Database {
    var users: seq<User>
    var shipments: seq<Shipment>
    var notifications: seq<Notification>
    var pickups: seq<Pickup>
    var settings: seq<Setting>
    var templates: map<NotificationEvent, Template>
    var rules: seq<Pricing.PricingRule>

    /** An empty store holding only the given pricing rules and notification templates. */
    constructor (rules: seq<Pricing.PricingRule>, templates: map<NotificationEvent, Template>)
      ensures this.rules == rules && this.templates == templates
      ensures users == [] && shipments == [] && notifications == [] && pickups == [] && settings == []
    {
      this.users := [];
      this.shipments := [];
      this.notifications := [];
      this.pickups := [];
      this.settings := [];
      this.templates := templates;
      this.rules := rules;
    }
  }

  /** The `@unique` constraint on `User.email`. */
  predicate UniqueEmails(users: seq<User>) {
    forall i, j :: 0 <= i < j < |users| ==> users[i].email != users[j].email
  }

  /** The `@unique` constraint on `Settings.key`. */
  predicate UniqueKeys(settings: seq<Setting>) {
    forall i, j :: 0 <= i < j < |settings| ==> settings[i].key != settings[j].key
  }
}
