// The agent product setup candidate: the rules it prepares, and the recogniser
// that reads the grants back out of them.
module AgentProductSetup {
  import opened Options
  import opened StringOrder
  import opened AuthzRules

  const SETUP_SET: string := "operator.agent-product-setup"

  // A local operator rule, by its selector fields.
  datatype Operator = Operator(setId: Option<string>, ruleId: Option<string>, subjects: seq<string>, labels: seq<string>,
                               products: seq<string>, contexts: seq<string>, instances: seq<string>, actions: seq<string>)

  datatype Grant = Grant(product: string, context: string, subject: string, tokenLabel: string)

  // Each product gets exactly these rules: suffix, lane, actions.
  datatype Shape = Shape(suffix: string, lane: string, actions: seq<string>)

  const CONFIG := Shape("testing-config", "testing", ["product_config.plan", "product_config.apply"])
  const BACKUP := Shape("prod-backup-policy", "prod", ["production_backup_authority.write"])
  const TARGET := Shape("testing-target", "testing", ["dokploy_target.lane_setup"])

  function RuleId(product: string, shape: Shape): string { product + "." + shape.suffix }

  function SetupRule(g: Grant, shape: Shape): Operator {
    Operator(Some(SETUP_SET), Some(RuleId(g.product, shape)), [g.subject], [g.tokenLabel], [g.product], [g.context], [shape.lane], shape.actions)
  }

  function SetupRules(g: Grant): seq<Operator> { [SetupRule(g, CONFIG), SetupRule(g, BACKUP), SetupRule(g, TARGET)] }

  function AllRules(grants: seq<Grant>): seq<Operator> {
    if grants == [] then [] else AllRules(grants[..|grants| - 1]) + SetupRules(grants[|grants| - 1])
  }

  // ----- actions in sorted order -----

  function PlaceAction(values: seq<string>, v: string): seq<string> {
    if values == [] || !Before(v, values[|values| - 1]) then values + [v]
    else PlaceAction(values[..|values| - 1], v) + [values[|values| - 1]]
  }

  function SortedActions(values: seq<string>): seq<string> {
    if values == [] then [] else PlaceAction(SortedActions(values[..|values| - 1]), values[|values| - 1])
  }

  function WithSorted(rule: Operator): Operator { rule.(actions := SortedActions(rule.actions)) }

  // ----- rules by identity -----

  type Index = map<Option<string>, Operator>

  function ById(rules: seq<Operator>): Index {
    if rules == [] then map[] else ById(rules[..|rules| - 1])[rules[|rules| - 1].ruleId := WithSorted(rules[|rules| - 1])]
  }

  predicate Distinct(rules: seq<Operator>) { forall i, j :: 0 <= i < j < |rules| ==> rules[i].ruleId != rules[j].ruleId }

  // ----- recognition -----

  predicate IsExact(value: string) { Strip(value) != "" && '*' !in value && '?' !in value && '[' !in value }

  // What stands before the last dot.
  function ProductOf(id: string): Option<string> {
    if id == "" then None else if id[|id| - 1] == '.' then Some(id[..|id| - 1]) else ProductOf(id[..|id| - 1])
  }

  function RuleProduct(rule: Operator): Option<string> { if rule.ruleId.None? then None else ProductOf(rule.ruleId.value) }

  predicate IsShaped(rule: Operator) {
    && rule.setId == Some(SETUP_SET) && RuleProduct(rule).Some? && IsExact(RuleProduct(rule).value)
    && |rule.contexts| == 1 && |rule.subjects| == 1 && |rule.labels| == 1
  }

  function Group(rules: seq<Operator>, product: string): seq<Operator> {
    if rules == [] then []
    else Group(rules[..|rules| - 1], product) + (if RuleProduct(rules[|rules| - 1]) == Some(product) then [rules[|rules| - 1]] else [])
  }

  function ProductsOf(rules: seq<Operator>): seq<string> {
    if rules == [] then []
    else ProductsOf(rules[..|rules| - 1]) + (if RuleProduct(rules[|rules| - 1]).Some? then [RuleProduct(rules[|rules| - 1]).value] else [])
  }

  predicate IsGrant(g: Grant) { IsExact(g.product) && IsExact(g.context) && IsExact(g.subject) && IsExact(g.tokenLabel) }

  // The grant of one product's group, if the group is exactly its rules.
  function GrantOf(product: string, group: seq<Operator>): Option<Grant> {
    if group == [] || |group[0].contexts| != 1 || |group[0].subjects| != 1 || |group[0].labels| != 1 then None
    else
      var g := Grant(product, group[0].contexts[0], group[0].subjects[0], group[0].labels[0]);
      if !(IsExact(g.context) && IsExact(g.subject) && IsExact(g.tokenLabel)) then None
      else if |ById(group)| == |group| && ById(group) == ById(SetupRules(g)) then Some(g)
      else None
  }

  function GrantsFor(products: seq<string>, rules: seq<Operator>): Option<seq<Grant>> {
    if products == [] then Some([])
    else
      var n := |products| - 1;
      var earlier := GrantsFor(products[..n], rules);
      var last := GrantOf(products[n], Group(rules, products[n]));
      if earlier.None? || last.None? then None else Some(earlier.value + [last.value])
  }

  predicate OneIdentity(grants: seq<Grant>) {
    forall i :: 0 <= i < |grants| ==> grants[i].subject == grants[0].subject && grants[i].tokenLabel == grants[0].tokenLabel
  }

  function Grants(rules: seq<Operator>): Option<seq<Grant>> {
    if exists i :: 0 <= i < |rules| && !IsShaped(rules[i]) then None
    else
      var grants := GrantsFor(SortedSet(ProductsOf(rules)), rules);
      if grants.None? || grants.value == [] || !OneIdentity(grants.value) then None else grants
  }

  // The rules are exactly those of the grants, in any order and with their
  // actions in any order.
  ghost predicate IsSetup(rules: seq<Operator>, grants: seq<Grant>) {
    && grants != [] && OneIdentity(grants)
    && (forall i :: 0 <= i < |grants| ==> IsGrant(grants[i]))
    && (forall i, j :: 0 <= i < j < |grants| ==> Before(grants[i].product, grants[j].product))
    && Distinct(rules) && ById(rules) == ById(AllRules(grants))
  }

  // ----- identities -----

  lemma {:induction false} ProductOfId(product: string, suffix: string)
    requires '.' !in suffix
    ensures ProductOf(product + "." + suffix) == Some(product)
  {
    var id := product + "." + suffix;
    if suffix == "" {
      assert id == product + ".";
    } else {
      var n := |suffix| - 1;
      ProductOfId(product, suffix[..n]);
      assert id[..|id| - 1] == product + "." + suffix[..n] && id[|id| - 1] == suffix[n];
    }
  }

  lemma ProductOfRule(g: Grant, shape: Shape)
    requires shape == CONFIG || shape == BACKUP || shape == TARGET
    ensures RuleProduct(SetupRule(g, shape)) == Some(g.product)
  {
    ProductOfId(g.product, shape.suffix);
  }

  lemma SuffixesDiffer(product: string)
    ensures RuleId(product, CONFIG) != RuleId(product, BACKUP) && RuleId(product, CONFIG) != RuleId(product, TARGET)
    ensures RuleId(product, BACKUP) != RuleId(product, TARGET)
  {
    var n := |product| + 1;
    assert RuleId(product, CONFIG)[n..] == CONFIG.suffix && RuleId(product, BACKUP)[n..] == BACKUP.suffix
           && RuleId(product, TARGET)[n..] == TARGET.suffix;
    assert CONFIG.suffix[0] != BACKUP.suffix[0] && CONFIG.suffix[8] != TARGET.suffix[8] && BACKUP.suffix[0] != TARGET.suffix[0];
  }

  // ----- the index -----

  lemma {:induction false} IndexHolds(rules: seq<Operator>, id: Option<string>)
    ensures id in ById(rules) <==> exists i :: 0 <= i < |rules| && rules[i].ruleId == id
    ensures id in ById(rules) ==> exists i :: 0 <= i < |rules| && rules[i].ruleId == id && WithSorted(rules[i]) == ById(rules)[id]
  {
    if rules != [] {
      var n := |rules| - 1;
      IndexHolds(rules[..n], id);
      if i :| 0 <= i < |rules| && rules[i].ruleId == id {
        assert i < n ==> rules[..n][i] == rules[i];
      }
      if id in ById(rules) && rules[n].ruleId != id {
        var i :| 0 <= i < n && rules[..n][i].ruleId == id && WithSorted(rules[..n][i]) == ById(rules[..n])[id];
        assert rules[i] == rules[..n][i];
      }
    }
  }

  // With distinct identities every rule is in its place.
  lemma {:induction false} IndexedAt(rules: seq<Operator>, i: nat)
    requires Distinct(rules) && i < |rules|
    ensures rules[i].ruleId in ById(rules) && ById(rules)[rules[i].ruleId] == WithSorted(rules[i])
  {
    var n := |rules| - 1;
    if i < n {
      IndexedAt(rules[..n], i);
      assert rules[..n][i] == rules[i];
    }
  }

  lemma {:induction false} IndexSize(rules: seq<Operator>)
    ensures |ById(rules)| <= |rules|
    ensures |ById(rules)| == |rules| <==> Distinct(rules)
  {
    if rules != [] {
      var n := |rules| - 1;
      var front := rules[..n];
      IndexSize(front);
      IndexHolds(front, rules[n].ruleId);
      var before, key := ById(front), rules[n].ruleId;
      assert before[key := WithSorted(rules[n])].Keys == before.Keys + {key};
      assert |before| == |before.Keys| && |ById(rules)| == |ById(rules).Keys|;
      assert Distinct(rules) <==> Distinct(front) && key !in before by {
        forall i | 0 <= i < n
          ensures front[i] == rules[i]
        {}
      }
    }
  }

  // ----- groups -----

  function KeyProduct(key: Option<string>): Option<string> { if key.None? then None else ProductOf(key.value) }

  // A group is the part of the index with its product.
  lemma {:induction false} GroupIndex(rules: seq<Operator>, product: string, key: Option<string>)
    ensures key in ById(Group(rules, product)) <==> key in ById(rules) && KeyProduct(key) == Some(product)
    ensures key in ById(Group(rules, product)) ==> ById(Group(rules, product))[key] == ById(rules)[key]
  {
    hide ProductOf, WithSorted;
    if rules != [] {
      var n := |rules| - 1;
      GroupIndex(rules[..n], product, key);
      var front := Group(rules[..n], product);
      assert (front + [rules[n]])[..|front|] == front && front + [] == front;
    }
  }

  lemma GroupIndexes(rules: seq<Operator>, product: string)
    ensures ById(Group(rules, product)) == map k | k in ById(rules) && KeyProduct(k) == Some(product) :: ById(rules)[k]
  {
    hide ById, Group, KeyProduct;
    forall key
      ensures key in ById(Group(rules, product)) <==> key in ById(rules) && KeyProduct(key) == Some(product)
      ensures key in ById(Group(rules, product)) ==> ById(Group(rules, product))[key] == ById(rules)[key]
    {
      GroupIndex(rules, product, key);
    }
  }

  lemma DistinctSnoc(rules: seq<Operator>, last: Operator)
    ensures Distinct(rules + [last]) <==> Distinct(rules) && last.ruleId !in ById(rules)
  {
    IndexHolds(rules, last.ruleId);
    var all := rules + [last];
    assert forall i :: 0 <= i < |rules| ==> all[i] == rules[i];
    if Distinct(rules) && last.ruleId !in ById(rules) {
      assert forall i :: 0 <= i < |rules| ==> rules[i].ruleId != last.ruleId;
    }
    if Distinct(all) {
      assert forall i, j :: 0 <= i < j < |rules| ==> all[i].ruleId != all[j].ruleId;
      assert forall i :: 0 <= i < |rules| ==> all[i].ruleId != all[|rules|].ruleId;
    }
  }

  lemma GroupSnoc(front: seq<Operator>, last: Operator, product: string)
    ensures Group(front + [last], product) == if RuleProduct(last) == Some(product) then Group(front, product) + [last] else Group(front, product)
  {
    assert (front + [last])[..|front|] == front && Group(front, product) + [] == Group(front, product);
  }

  // One more rule is new in its own group exactly when it is new at all.
  lemma DistinctInGroup(front: seq<Operator>, last: Operator)
    requires RuleProduct(last).Some?
    ensures var own := RuleProduct(last).value;
            Distinct(Group(front, own) + [last]) <==> Distinct(Group(front, own)) && last.ruleId !in ById(front)
  {
    hide ProductOf, Distinct, ById, Group;
    var own := RuleProduct(last).value;
    DistinctSnoc(Group(front, own), last);
    GroupIndex(front, own, last.ruleId);
    KeyOfRule(last);
  }

  lemma {:induction false} DistinctGroup(rules: seq<Operator>, product: string)
    requires Distinct(rules) && forall i :: 0 <= i < |rules| ==> RuleProduct(rules[i]).Some?
    ensures Distinct(Group(rules, product))
  {
    hide ProductOf, RuleProduct, ById, Distinct, Group;
    if rules == [] {
      NoneDistinct();
    } else {
      var front, last := rules[..|rules| - 1], rules[|rules| - 1];
      assert rules == front + [last];
      DistinctSnoc(front, last);
      DistinctGroup(front, product);
      GroupSnoc(front, last, product);
      DistinctInGroup(front, last);
    }
  }

  lemma {:induction false} GroupsDistinct(rules: seq<Operator>)
    requires (forall p :: Distinct(Group(rules, p))) && forall i :: 0 <= i < |rules| ==> RuleProduct(rules[i]).Some?
    ensures Distinct(rules)
  {
    hide ProductOf, RuleProduct, ById, Distinct, Group;
    if rules == [] {
      NoneDistinct();
    } else {
      var front, last := rules[..|rules| - 1], rules[|rules| - 1];
      var own := RuleProduct(last).value;
      assert rules == front + [last];
      forall p
        ensures Distinct(Group(front, p))
      {
        assert Distinct(Group(rules, p));
        GroupSnoc(front, last, p);
        DistinctInGroup(front, last);
      }
      GroupsDistinct(front);
      assert Distinct(Group(rules, own));
      GroupSnoc(front, last, own);
      DistinctInGroup(front, last);
      DistinctSnoc(front, last);
    }
  }

  lemma NoneDistinct()
    ensures Distinct([]) && forall p :: Group([], p) == []
  {}

  lemma KeyOfRule(rule: Operator)
    ensures KeyProduct(rule.ruleId) == RuleProduct(rule)
  {}

  lemma {:induction false} GroupJoin(a: seq<Operator>, b: seq<Operator>, product: string)
    ensures Group(a + b, product) == Group(a, product) + Group(b, product)
  {
    hide RuleProduct;
    if b == [] {
      assert a + b == a;
    } else {
      GroupJoin(a, b[..|b| - 1], product);
      assert (a + b)[..|a + b| - 1] == a + b[..|b| - 1];
    }
  }

  lemma GroupOfSetup(g: Grant, product: string)
    ensures Group(SetupRules(g), product) == if product == g.product then SetupRules(g) else []
  {
    hide ProductOf, RuleProduct;
    ProductOfRule(g, CONFIG);
    ProductOfRule(g, BACKUP);
    ProductOfRule(g, TARGET);
    var rules := SetupRules(g);
    GroupJoin([rules[0]], [rules[1]], product);
    GroupJoin([rules[0]] + [rules[1]], [rules[2]], product);
    assert rules == [rules[0]] + [rules[1]] + [rules[2]];
    forall i | 0 <= i < 3
      ensures Group([rules[i]], product) == if product == g.product then [rules[i]] else []
    {
      assert [rules[i]][..0] == [];
      assert RuleProduct(rules[i]) == Some(g.product);
    }
  }

  // Among the rules of several grants, each product's are its own.
  lemma {:induction false} GroupOfAll(grants: seq<Grant>, i: nat)
    requires i < |grants| && forall j, k :: 0 <= j < k < |grants| ==> grants[j].product != grants[k].product
    ensures Group(AllRules(grants), grants[i].product) == SetupRules(grants[i])
  {
    hide SetupRules;
    var n := |grants| - 1;
    var front, last := grants[..n], grants[n];
    GroupJoin(AllRules(front), SetupRules(last), grants[i].product);
    GroupOfSetup(last, grants[i].product);
    if i < n {
      assert front[i] == grants[i];
      GroupOfAll(front, i);
      assert SetupRules(grants[i]) + [] == SetupRules(grants[i]);
    } else {
      NoGroupOfAll(front, last.product);
    }
  }

  lemma {:induction false} NoGroupOfAll(grants: seq<Grant>, product: string)
    requires forall i :: 0 <= i < |grants| ==> grants[i].product != product
    ensures Group(AllRules(grants), product) == []
  {
    hide SetupRules;
    if grants != [] {
      var front, last := grants[..|grants| - 1], grants[|grants| - 1];
      NoGroupOfAll(front, product);
      GroupJoin(AllRules(front), SetupRules(last), product);
      GroupOfSetup(last, product);
    }
  }

  lemma {:induction false} AllRulesHaveProducts(grants: seq<Grant>, i: nat)
    requires i < |AllRules(grants)|
    ensures exists k :: 0 <= k < |grants| && RuleProduct(AllRules(grants)[i]) == Some(grants[k].product) && AllRules(grants)[i] in SetupRules(grants[k])
  {
    hide ProductOf, RuleProduct;
    var front, last := grants[..|grants| - 1], grants[|grants| - 1];
    if i < |AllRules(front)| {
      AllRulesHaveProducts(front, i);
      var k :| 0 <= k < |front| && RuleProduct(AllRules(front)[i]) == Some(front[k].product) && AllRules(front)[i] in SetupRules(front[k]);
      assert grants[k] == front[k];
    } else {
      ProductOfRule(last, CONFIG);
      ProductOfRule(last, BACKUP);
      ProductOfRule(last, TARGET);
      assert grants[|grants| - 1] == last;
    }
  }

  // Rules with the same groups have the same index.
  lemma SameGroups(rules: seq<Operator>, others: seq<Operator>)
    requires forall i :: 0 <= i < |rules| ==> RuleProduct(rules[i]).Some?
    requires forall i :: 0 <= i < |others| ==> RuleProduct(others[i]).Some?
    requires forall p :: ById(Group(rules, p)) == ById(Group(others, p))
    ensures ById(rules) == ById(others)
  {
    hide ById, Group, ProductOf;
    forall key
      ensures key in ById(rules) <==> key in ById(others)
      ensures key in ById(rules) && key in ById(others) ==> ById(rules)[key] == ById(others)[key]
    {
      IndexHolds(rules, key);
      IndexHolds(others, key);
      if KeyProduct(key).Some? {
        GroupIndex(rules, KeyProduct(key).value, key);
        GroupIndex(others, KeyProduct(key).value, key);
      }
    }
  }

  // ----- reading the grants back -----

  lemma {:induction false} ProductsOccur(rules: seq<Operator>, product: string)
    ensures product in ProductsOf(rules) <==> exists i :: 0 <= i < |rules| && RuleProduct(rules[i]) == Some(product)
  {
    hide ProductOf, RuleProduct;
    if rules != [] {
      var front := rules[..|rules| - 1];
      ProductsOccur(front, product);
      assert rules == front + [rules[|rules| - 1]];
      assert forall i :: 0 <= i < |front| ==> rules[i] == front[i];
    }
  }

  lemma {:induction false} ProductsHaveGroups(rules: seq<Operator>, product: string)
    ensures product in ProductsOf(rules) <==> Group(rules, product) != []
  {
    hide ProductOf, RuleProduct;
    if rules != [] {
      ProductsHaveGroups(rules[..|rules| - 1], product);
    }
  }

  lemma ProductsAre(rules: seq<Operator>, product: string)
    ensures product in ProductsOf(rules) <==> exists i :: 0 <= i < |rules| && RuleProduct(rules[i]) == Some(product)
    ensures product in ProductsOf(rules) <==> Group(rules, product) != []
  {
    hide ProductsOf, Group, RuleProduct;
    ProductsOccur(rules, product);
    ProductsHaveGroups(rules, product);
  }

  lemma {:induction false} GrantsForEach(products: seq<string>, rules: seq<Operator>)
    ensures GrantsFor(products, rules).Some? <==>
            forall i :: 0 <= i < |products| ==> GrantOf(products[i], Group(rules, products[i])).Some?
    ensures GrantsFor(products, rules).Some? ==>
              && |GrantsFor(products, rules).value| == |products|
              && forall i :: 0 <= i < |products| ==> GrantOf(products[i], Group(rules, products[i])) == Some(GrantsFor(products, rules).value[i])
  {
    hide GrantOf, Group;
    if products != [] {
      GrantsForEach(products[..|products| - 1], rules);
    }
  }

  // The setup rules of a grant, whatever their order, give that grant.
  lemma GrantReadBack(g: Grant, group: seq<Operator>)
    requires IsGrant(g) && Distinct(group) && ById(group) == ById(SetupRules(g))
    ensures GrantOf(g.product, group) == Some(g)
  {
    hide IsExact, ProductOf, Distinct, SortedActions;
    IndexSize(group);
    SetupIsDistinct(g);
    IndexSize(SetupRules(g));
    IndexedAt(group, 0);
    IndexHolds(SetupRules(g), group[0].ruleId);
    hide ById;
    var k :| 0 <= k < 3 && SetupRules(g)[k].ruleId == group[0].ruleId && WithSorted(SetupRules(g)[k]) == ById(SetupRules(g))[group[0].ruleId];
    assert WithSorted(group[0]) == WithSorted(SetupRules(g)[k]);
  }

  lemma SetupIsDistinct(g: Grant)
    ensures Distinct(SetupRules(g))
  {
    hide RuleId;
    SuffixesDiffer(g.product);
  }

  // ----- the recogniser inverts the compiler -----

  // What is recognised is a setup of those grants.
  lemma RecognisedIsSetup(rules: seq<Operator>)
    requires Grants(rules).Some?
    ensures exists grants :: Grants(rules) == Some(grants) && IsSetup(rules, grants)
  {
    hide ById, Group, IsExact, Distinct, SetupRules, ProductOf, GrantsFor, ProductsOf, AllRules;
    var products, grants := SortedSet(ProductsOf(rules)), Grants(rules).value;
    SortedSetIsSorted(ProductsOf(rules));
    GrantsForEach(products, rules);
    forall i | 0 <= i < |products|
      ensures IsGrant(grants[i]) && grants[i].product == products[i]
      ensures Distinct(Group(rules, products[i])) && ById(Group(rules, products[i])) == ById(SetupRules(grants[i]))
    {
      assert GrantOf(products[i], Group(rules, products[i])) == Some(grants[i]);
      IndexSize(Group(rules, products[i]));
      ProductsAre(rules, products[i]);
    }
    ProductsAreDistinct(grants);
    forall p
      ensures Distinct(Group(rules, p)) && ById(Group(rules, p)) == ById(Group(AllRules(grants), p))
    {
      ProductsAre(rules, p);
      if p in products {
        var i :| 0 <= i < |products| && products[i] == p;
        GroupOfAll(grants, i);
      } else {
        NoGroupOfAll(grants, p);
        NoneDistinct();
      }
    }
    GroupsDistinct(rules);
    forall i | 0 <= i < |AllRules(grants)|
      ensures RuleProduct(AllRules(grants)[i]).Some?
    {
      AllRulesHaveProducts(grants, i);
    }
    SameGroups(rules, AllRules(grants));
  }

  lemma ProductsAreDistinct(grants: seq<Grant>)
    requires forall i, j :: 0 <= i < j < |grants| ==> Before(grants[i].product, grants[j].product)
    ensures forall j, k :: 0 <= j < k < |grants| ==> grants[j].product != grants[k].product
  {
    forall j, k | 0 <= j < k < |grants|
      ensures grants[j].product != grants[k].product
    {
      NotBoth(grants[j].product, grants[k].product);
    }
  }

  // Every rule of a setup has the prepared shape.
  lemma SetupIsShaped(rules: seq<Operator>, grants: seq<Grant>)
    requires IsSetup(rules, grants)
    ensures forall i :: 0 <= i < |rules| ==>
                          IsShaped(rules[i]) && exists k :: 0 <= k < |grants| && RuleProduct(rules[i]) == Some(grants[k].product)
  {
    hide IsExact, ProductOf, SortedActions, AllRules, ById;
    forall i | 0 <= i < |rules|
      ensures IsShaped(rules[i]) && exists k :: 0 <= k < |grants| && RuleProduct(rules[i]) == Some(grants[k].product)
    {
      IndexedAt(rules, i);
      IndexHolds(AllRules(grants), rules[i].ruleId);
      var j :| 0 <= j < |AllRules(grants)| && AllRules(grants)[j].ruleId == rules[i].ruleId
        && WithSorted(AllRules(grants)[j]) == ById(AllRules(grants))[rules[i].ruleId];
      AllRulesHaveProducts(grants, j);
      var k :| 0 <= k < |grants| && RuleProduct(AllRules(grants)[j]) == Some(grants[k].product) && AllRules(grants)[j] in SetupRules(grants[k]);
      assert WithSorted(rules[i]) == WithSorted(AllRules(grants)[j]);
      assert IsGrant(grants[k]);
    }
  }

  lemma SetupProducts(rules: seq<Operator>, grants: seq<Grant>)
    requires IsSetup(rules, grants)
    ensures SortedSet(ProductsOf(rules)) == seq(|grants|, i requires 0 <= i < |grants| => grants[i].product)
  {
    hide ById, IsExact, ProductOf, AllRules, Distinct, IsShaped, RuleProduct, ProductsOf, SetupRules, Group;
    var products := seq(|grants|, i requires 0 <= i < |grants| => grants[i].product);
    SortedSetIsSorted(ProductsOf(rules));
    ProductsAreDistinct(grants);
    SetupIsShaped(rules, grants);
    forall p
      ensures p in SortedSet(ProductsOf(rules)) <==> p in products
    {
      ProductsAre(rules, p);
      if i :| 0 <= i < |rules| && RuleProduct(rules[i]) == Some(p) {
        var k :| 0 <= k < |grants| && RuleProduct(rules[i]) == Some(grants[k].product);
        assert products[k] == p;
      }
      if p in products {
        var k :| 0 <= k < |products| && products[k] == p;
        SetupGroup(rules, grants, k);
        GroupIsNotEmpty(rules, grants[k]);
      }
    }
    SortedIsUnique(SortedSet(ProductsOf(rules)), products);
  }

  lemma SetupGroup(rules: seq<Operator>, grants: seq<Grant>, k: nat)
    ensures IsSetup(rules, grants) && k < |grants| ==>
              exists group :: group == Group(rules, grants[k].product) && Distinct(group) && ById(group) == ById(SetupRules(grants[k]))
  {
    hide ById, IsExact, ProductOf, AllRules, Distinct, SetupRules, Group, IsShaped;
    if IsSetup(rules, grants) && k < |grants| {
      ProductsAreDistinct(grants);
      GroupOfAll(grants, k);
      GroupIndexes(rules, grants[k].product);
      GroupIndexes(AllRules(grants), grants[k].product);
      SetupIsShaped(rules, grants);
      DistinctGroup(rules, grants[k].product);
    }
  }

  lemma GroupIsNotEmpty(rules: seq<Operator>, g: Grant)
    ensures ById(Group(rules, g.product)) == ById(SetupRules(g)) ==> Group(rules, g.product) != []
  {
    hide WithSorted, Group, RuleId;
    if ById(Group(rules, g.product)) == ById(SetupRules(g)) {
      assert SetupRules(g)[2].ruleId in ById(SetupRules(g));
    }
  }

  lemma SetupIsRecognised(rules: seq<Operator>, grants: seq<Grant>)
    requires IsSetup(rules, grants)
    ensures Grants(rules) == Some(grants)
  {
    hide ById, IsExact, ProductOf, AllRules, Distinct, SetupRules, Group, IsShaped, RuleProduct, ProductsOf, GrantOf;
    var products := SortedSet(ProductsOf(rules));
    SetupProducts(rules, grants);
    forall i | 0 <= i < |products|
      ensures GrantOf(products[i], Group(rules, products[i])) == Some(grants[i])
    {
      SetupGroup(rules, grants, i);
      GrantReadBack(grants[i], Group(rules, products[i]));
    }
    GrantsForEach(products, rules);
    hide GrantsFor;
    assert GrantsFor(products, rules).value == grants;
    SetupIsShaped(rules, grants);
  }

  // The recogniser returns the grants exactly when the rules are their setup,
  // in any order of rules and of actions.
  lemma GrantsInvertSetup(rules: seq<Operator>, grants: seq<Grant>)
    ensures Grants(rules) == Some(grants) <==> IsSetup(rules, grants)
  {
    hide Grants, IsSetup;
    if Grants(rules).Some? {
      RecognisedIsSetup(rules);
    }
    if IsSetup(rules, grants) {
      SetupIsRecognised(rules, grants);
    }
  }

  // ----- the recogniser as it runs -----

  // The rules of one pass, by product.
  ghost predicate IsGrouped(groups: map<string, seq<Operator>>, rules: seq<Operator>) {
    && (forall p :: p in groups <==> p in ProductsOf(rules))
    && (forall p :: Group(rules, p) == if p in groups then groups[p] else [])
  }

  lemma GroupedSnoc(groups: map<string, seq<Operator>>, front: seq<Operator>, last: Operator)
    requires IsGrouped(groups, front) && RuleProduct(last).Some?
    ensures var p := RuleProduct(last).value;
            IsGrouped(groups[p := (if p in groups then groups[p] else []) + [last]], front + [last])
  {
    hide Group, RuleProduct;
    assert (front + [last])[..|front|] == front;
    forall p
      ensures Group(front + [last], p) == if RuleProduct(last) == Some(p) then Group(front, p) + [last] else Group(front, p)
    {
      GroupSnoc(front, last, p);
    }
  }

  method GroupRules(rules: seq<Operator>) returns (groups: Option<map<string, seq<Operator>>>)
    ensures groups.Some? <==> forall i :: 0 <= i < |rules| ==> IsShaped(rules[i])
    ensures groups.Some? ==> IsGrouped(groups.value, rules)
  {
    hide IsShaped, IsGrouped, ProductOf;
    var found: map<string, seq<Operator>> := map[];
    NothingGrouped();
    for i := 0 to |rules|
      invariant forall j :: 0 <= j < i ==> IsShaped(rules[j])
      invariant IsGrouped(found, rules[..i])
    {
      if !IsShaped(rules[i]) {
        return None;
      }
      ShapedHasProduct(rules[i]);
      var product := RuleProduct(rules[i]).value;
      GroupedSnoc(found, rules[..i], rules[i]);
      assert rules[..i + 1] == rules[..i] + [rules[i]];
      found := found[product := (if product in found then found[product] else []) + [rules[i]]];
    }
    assert rules[..|rules|] == rules;
    return Some(found);
  }

  lemma NothingGrouped()
    ensures IsGrouped(map[], [])
  {}

  method AgentProductSetupGrants(rules: seq<Operator>) returns (result: Option<seq<Grant>>)
    ensures result == Grants(rules)
  {
    hide IsShaped, ProductsOf, GrantsFor, Group, GrantOf;
    var grouped := GroupRules(rules);
    if grouped.None? {
      return None;
    }
    var groups := grouped.value;
    var products := SortSet(groups.Keys);
    SortedSetIsSorted(ProductsOf(rules));
    SortedIsUnique(products, SortedSet(ProductsOf(rules)));
    var grants: seq<Grant> := [];
    GrantsForEach([], rules);
    assert products[..0] == [];
    for i := 0 to |products|
      invariant GrantsFor(products[..i], rules) == Some(grants)
    {
      assert products[i] in groups;
      GrantsForOne(products, rules, i);
      var grant := GrantOf(products[i], groups[products[i]]);
      if grant.None? {
        GrantsForPrefix(products, rules, i + 1);
        return None;
      }
      grants := grants + [grant.value];
    }
    assert products[..|products|] == products;
    if grants == [] || !OneIdentity(grants) {
      return None;
    }
    return Some(grants);
  }

  lemma GrantsForOne(products: seq<string>, rules: seq<Operator>, i: nat)
    requires i < |products|
    ensures var earlier, one := GrantsFor(products[..i], rules), GrantOf(products[i], Group(rules, products[i]));
            GrantsFor(products[..i + 1], rules) == if earlier.None? || one.None? then None else Some(earlier.value + [one.value])
  {
    hide GrantOf, Group;
    assert products[..i + 1][..i] == products[..i];
  }

  lemma ShapedHasProduct(rule: Operator)
    ensures IsShaped(rule) ==> RuleProduct(rule).Some?
  {}

  lemma {:induction false} GrantsForPrefix(products: seq<string>, rules: seq<Operator>, n: nat)
    requires n <= |products| && GrantsFor(products[..n], rules).None?
    ensures GrantsFor(products, rules).None?
  {
    hide GrantOf, Group;
    if n < |products| {
      assert products[..|products| - 1][..n] == products[..n];
      GrantsForPrefix(products[..|products| - 1], rules, n);
    } else {
      assert products[..n] == products;
    }
  }
}
