/**
 Rolling a cost breakdown up into one figure per resource address, and totalling over addresses.
 */
module CostEstimate {
  import opened Text
  import opened Sorting

  datatype ResourceCost = ResourceCost(address: string, currency: string, monthlyCost: real)

  /** A price as the breakdown gives it; null and unreadable prices count as nothing. */
  type Price = Option<real>

  /** An entry of a breakdown: a resource with its subresources, or something that is no object. */
  datatype Item = NotAnObject | Resource(name: string, monthlyCost: Price, subresources: seq<SubItem>)

  datatype SubItem = NoSubObject | Sub(monthlyCost: Price)

  /** A project, or anything in its place that has no list of resources. */
  datatype Project = Unusable | Project(resources: seq<Item>)

  /** The parsed payload: its currency, and its projects if it has a list of them. */
  datatype Breakdown = Breakdown(currency: string, projects: Option<seq<Project>>)

  function AsDecimal(price: Price): real { if price.Some? then price.value else 0.0 }

  function SubTotal(subs: seq<SubItem>): real {
    if subs == [] then 0.0
    else
      SubTotal(subs[..|subs| - 1])
      + if subs[|subs| - 1].Sub? then AsDecimal(subs[|subs| - 1].monthlyCost) else 0.0
  }

  /** What an item contributes, if it can be addressed. */
  function CostOf(item: Item, currency: string): Option<ResourceCost> {
    if item.NotAnObject? || Strip(item.name) == "" then None
    else Some(ResourceCost(Strip(item.name), currency, AsDecimal(item.monthlyCost) + SubTotal(item.subresources)))
  }

  // ----- The bill -----

  /** A price of the breakdown, and the address of the resource it is billed to. */
  datatype BillLine = BillLine(address: string, price: real)

  function PriceLine(address: string, price: Price): seq<BillLine> {
    if price.None? then [] else [BillLine(address, price.value)]
  }

  function SubLines(address: string, subs: seq<SubItem>): seq<BillLine> {
    if subs == [] then []
    else
      var earlier, last := SubLines(address, subs[..|subs| - 1]), subs[|subs| - 1];
      match last
      case NoSubObject => earlier
      case Sub(price) => earlier + PriceLine(address, price)
  }

  /** The own price of a resource with an address, and the prices of all its subresources. */
  function ItemLines(item: Item): seq<BillLine> {
    match item
    case NotAnObject => []
    case Resource(name, price, subs) =>
      if Strip(name) == "" then [] else PriceLine(Strip(name), price) + SubLines(Strip(name), subs)
  }

  function Lines(items: seq<Item>): seq<BillLine> {
    if items == [] then [] else Lines(items[..|items| - 1]) + ItemLines(items[|items| - 1])
  }

  function ProjectLines(projects: seq<Project>): seq<BillLine> {
    if projects == [] then []
    else
      var earlier := ProjectLines(projects[..|projects| - 1]);
      match projects[|projects| - 1]
      case Unusable => earlier
      case Project(resources) => earlier + Lines(resources)
  }

  /** Every price that the breakdown gives for a resource with an address or for one of its subresources. */
  function Bill(b: Breakdown): seq<BillLine> {
    match b.projects
    case None => []
    case Some(projects) => ProjectLines(projects)
  }

  function SumOf(lines: seq<BillLine>): real {
    if lines == [] then 0.0 else SumOf(lines[..|lines| - 1]) + lines[|lines| - 1].price
  }

  function SumFor(lines: seq<BillLine>, address: string): real {
    if lines == [] then 0.0
    else
      var earlier, last := SumFor(lines[..|lines| - 1], address), lines[|lines| - 1];
      if last.address == address then earlier + last.price else earlier
  }

  /** Some project has a resource of this address. */
  ghost predicate IsNamed(b: Breakdown, address: string) {
    && address != "" && b.projects.Some?
    && exists p, i :: IsNamedAt(b.projects.value, p, i, address)
  }

  predicate IsNamedAt(projects: seq<Project>, p: int, i: int, address: string) {
    && 0 <= p < |projects| && projects[p].Project? && 0 <= i < |projects[p].resources|
    && NamesIt(projects[p].resources[i], address)
  }

  predicate NamesIt(item: Item, address: string) {
    item.Resource? && Strip(item.name) == address
  }

  lemma {:induction false} SumsConcatenate(lines: seq<BillLine>, more: seq<BillLine>, address: string)
    ensures SumOf(lines + more) == SumOf(lines) + SumOf(more)
    ensures SumFor(lines + more, address) == SumFor(lines, address) + SumFor(more, address)
  {
    if more == [] {
      assert lines + more == lines;
    } else {
      assert (lines + more)[..|lines + more| - 1] == lines + more[..|more| - 1];
      SumsConcatenate(lines, more[..|more| - 1], address);
    }
  }

  lemma {:induction false} SubLinesSum(address: string, subs: seq<SubItem>, other: string)
    ensures SumOf(SubLines(address, subs)) == SubTotal(subs)
    ensures SumFor(SubLines(address, subs), other) == if other == address then SubTotal(subs) else 0.0
  {
    if subs != [] {
      var last := subs[|subs| - 1];
      SubLinesSum(address, subs[..|subs| - 1], other);
      if last.Sub? {
        PriceLineSum(address, last.monthlyCost, other);
        SumsConcatenate(SubLines(address, subs[..|subs| - 1]), PriceLine(address, last.monthlyCost), other);
      }
    }
  }

  lemma PriceLineSum(address: string, price: Price, other: string)
    ensures SumOf(PriceLine(address, price)) == AsDecimal(price)
    ensures SumFor(PriceLine(address, price), other) == if other == address then AsDecimal(price) else 0.0
  {
  }

  /** An item is billed at its own address, with exactly what it is said to cost. */
  lemma ItemIsBilled(item: Item, currency: string, other: string)
    ensures match CostOf(item, currency)
      case None => ItemLines(item) == [] && forall a | a != "" :: !NamesIt(item, a)
      case Some(cost) =>
        && cost.currency == currency && cost.address != "" && (forall a :: NamesIt(item, a) <==> a == cost.address)
        && SumOf(ItemLines(item)) == cost.monthlyCost
        && SumFor(ItemLines(item), other) == if other == cost.address then cost.monthlyCost else 0.0
  {
    hide Strip; hide SumOf; hide SumFor; hide SubLines; hide PriceLine; hide SubTotal; hide AsDecimal;
    if item.Resource? && Strip(item.name) != "" {
      var address := Strip(item.name);
      SubLinesSum(address, item.subresources, other);
      PriceLineSum(address, item.monthlyCost, other);
      SumsConcatenate(PriceLine(address, item.monthlyCost), SubLines(address, item.subresources), other);
    }
  }

  method ResourceCostOf(item: Item, currency: string) returns (cost: Option<ResourceCost>)
    ensures cost == CostOf(item, currency)
    ensures cost.None? <==> item.NotAnObject? || Strip(item.name) == ""
    ensures cost.Some? ==> cost.value == ResourceCost(Strip(item.name), currency, SumOf(ItemLines(item)))
  {
    if item.NotAnObject? {
      return None;
    }
    var address := Strip(item.name);
    if address == "" {
      return None;
    }
    var monthly := AsDecimal(item.monthlyCost);
    for i := 0 to |item.subresources|
      invariant monthly == AsDecimal(item.monthlyCost) + SubTotal(item.subresources[..i])
    {
      var sub := item.subresources[i];
      assert item.subresources[..i + 1][..i] == item.subresources[..i];
      if sub.Sub? {
        monthly := monthly + AsDecimal(sub.monthlyCost);
      }
    }
    assert item.subresources[..|item.subresources|] == item.subresources;
    ItemIsBilled(item, currency, address);
    cost := Some(ResourceCost(address, currency, monthly));
  }

  type Costs = map<string, ResourceCost>

  /** `ResourceCost.merge`: the first one's address and currency, both costs. */
  function Merge(first: ResourceCost, second: ResourceCost): ResourceCost {
    first.(monthlyCost := first.monthlyCost + second.monthlyCost)
  }

  function Items(projects: seq<Project>): seq<Item> {
    if projects == [] then []
    else
      Items(projects[..|projects| - 1])
      + if projects[|projects| - 1].Project? then projects[|projects| - 1].resources else []
  }

  function AllItems(b: Breakdown): seq<Item> {
    if b.projects.None? then [] else Items(b.projects.value)
  }

  function CurrencyOf(b: Breakdown): string { OrElse(Strip(b.currency), "USD") }

  predicate IsNamedIn(items: seq<Item>, address: string) {
    address != "" && exists i | 0 <= i < |items| :: NamesIt(items[i], address)
  }

  /** The map has a figure for exactly the addresses that are named, and the figure is what is billed to them. */
  ghost predicate RollsUp(costs: Costs, items: seq<Item>, currency: string) {
    forall a :: (a in costs <==> IsNamedIn(items, a))
      && (a in costs ==> costs[a] == ResourceCost(a, currency, SumFor(Lines(items), a)))
  }

  lemma {:induction false} NothingNamed(items: seq<Item>, address: string)
    requires !IsNamedIn(items, address)
    ensures SumFor(Lines(items), address) == 0.0
  {
    if items != [] {
      var n := |items| - 1;
      NamedWithOneMore(items[..n], items[n], address);
      assert items == items[..n] + [items[n]];
      NothingNamed(items[..n], address);
      SumsConcatenate(Lines(items[..n]), ItemLines(items[n]), address);
      ItemIsBilled(items[n], "", address);
      hide ItemLines; hide SumFor; hide CostOf;
    }
  }

  lemma NamedWithOneMore(items: seq<Item>, item: Item, address: string)
    ensures IsNamedIn(items + [item], address) <==>
      IsNamedIn(items, address) || (address != "" && NamesIt(item, address))
  {
    hide NamesIt;
    var longer := items + [item];
    assert longer[|items|] == item && forall i | 0 <= i < |items| :: longer[i] == items[i];
  }

  lemma OneMoreItem(costs: Costs, items: seq<Item>, currency: string, item: Item)
    requires RollsUp(costs, items, currency)
    ensures match CostOf(item, currency)
      case None => RollsUp(costs, items + [item], currency)
      case Some(cost) =>
        RollsUp(costs[cost.address := if cost.address in costs then Merge(costs[cost.address], cost) else cost],
                items + [item], currency)
  {
    hide Strip; hide CostOf; hide ItemLines; hide SumFor; hide NamesIt; hide IsNamedIn;
    assert (items + [item])[..|items|] == items;
    forall a ensures
        && (IsNamedIn(items + [item], a) <==> IsNamedIn(items, a) || (a != "" && NamesIt(item, a)))
        && SumFor(Lines(items + [item]), a) == SumFor(Lines(items), a) + SumFor(ItemLines(item), a)
    {
      NamedWithOneMore(items, item, a);
      SumsConcatenate(Lines(items), ItemLines(item), a);
    }
    ItemIsBilled(item, currency, "");
    match CostOf(item, currency) {
      case None => NothingBilled();
      case Some(cost) =>
        forall a ensures SumFor(ItemLines(item), a) == if a == cost.address then cost.monthlyCost else 0.0 {
          ItemIsBilled(item, currency, a);
        }
        if cost.address !in costs {
          NothingNamed(items, cost.address);
        }
    }
  }

  lemma NothingBilled()
    ensures SumOf([]) == 0.0 && forall a :: SumFor([], a) == 0.0
  {
  }

  /**
   The map has a figure for exactly the addresses that the breakdown names, in its currency or US
   dollars, and the figure is everything billed to the address.
   */
  ghost predicate IsRollUpOf(costs: Costs, b: Breakdown) {
    var currency := if Strip(b.currency) == "" then "USD" else Strip(b.currency);
    forall a :: (a in costs <==> IsNamed(b, a))
      && (a in costs ==> costs[a] == ResourceCost(a, currency, SumFor(Bill(b), a)))
  }

  lemma {:induction false} LinesConcatenate(items: seq<Item>, more: seq<Item>)
    ensures Lines(items + more) == Lines(items) + Lines(more)
  {
    hide ItemLines;
    if more == [] {
      assert items + more == items;
    } else {
      assert (items + more)[..|items + more| - 1] == items + more[..|more| - 1];
      LinesConcatenate(items, more[..|more| - 1]);
    }
  }

  lemma NamedInConcat(items: seq<Item>, more: seq<Item>, address: string)
    ensures IsNamedIn(items + more, address) <==> IsNamedIn(items, address) || IsNamedIn(more, address)
  {
    hide NamesIt;
    var all := items + more;
    if i :| 0 <= i < |items| && NamesIt(items[i], address) { assert NamesIt(all[i], address); }
    if i :| 0 <= i < |more| && NamesIt(more[i], address) { assert NamesIt(all[|items| + i], address); }
  }

  /** Item by item or project by project, the bill is the same. */
  lemma {:induction false} ItemsAreBilled(projects: seq<Project>, address: string)
    ensures Lines(Items(projects)) == ProjectLines(projects)
    ensures IsNamedIn(Items(projects), address) <==> address != "" && exists p, i :: IsNamedAt(projects, p, i, address)
  {
    hide NamesIt; hide Lines; hide IsNamedIn;
    if projects == [] {
      assert Lines([]) == [] && !IsNamedIn([], address) by { NoLines(address); }
    } else {
      var n := |projects| - 1;
      ItemsAreBilled(projects[..n], address);
      var last := if projects[n].Project? then projects[n].resources else [];
      LinesConcatenate(Items(projects[..n]), last);
      NamedInConcat(Items(projects[..n]), last, address);
      NoLines(address);
      assert Items(projects[..n]) + [] == Items(projects[..n]);
      if address != "" { LastProjectNames(projects[..n], projects[n], address); }
      assert projects == projects[..n] + [projects[n]];
    }
  }

  lemma NoLines(address: string)
    ensures Lines([]) == [] && !IsNamedIn([], address) && forall items :: !IsNamedIn(items, "")
  {
  }

  lemma LastProjectNames(earlier: seq<Project>, last: Project, address: string)
    requires address != ""
    ensures (exists p, i :: IsNamedAt(earlier + [last], p, i, address)) <==>
      (exists p, i :: IsNamedAt(earlier, p, i, address)) || (last.Project? && IsNamedIn(last.resources, address))
  {
    hide NamesIt;
    var projects, n := earlier + [last], |earlier|;
    if p, i :| IsNamedAt(projects, p, i, address) {
      if p < n {
        assert IsNamedAt(earlier, p, i, address);
      } else {
        assert NamesIt(last.resources[i], address);
      }
    }
    if p, i :| IsNamedAt(earlier, p, i, address) {
      assert IsNamedAt(projects, p, i, address);
    }
    if last.Project? && IsNamedIn(last.resources, address) {
      var i :| 0 <= i < |last.resources| && NamesIt(last.resources[i], address);
      assert IsNamedAt(projects, n, i, address);
    }
  }

  lemma ItemsRollUp(costs: Costs, b: Breakdown)
    requires RollsUp(costs, AllItems(b), CurrencyOf(b))
    ensures IsRollUpOf(costs, b)
  {
    hide NamesIt; hide Strip; hide SumFor; hide IsNamedIn; hide IsNamedAt; hide Lines; hide ProjectLines; hide Items;
    forall a
      ensures IsNamed(b, a) <==> IsNamedIn(AllItems(b), a)
      ensures Bill(b) == Lines(AllItems(b))
    {
      match b.projects {
        case None => NoLines(a);
        case Some(projects) => ItemsAreBilled(projects, a);
      }
    }
  }

  /** One pass over all projects. */
  method ParseResourceCosts(b: Breakdown) returns (costs: Costs)
    ensures IsRollUpOf(costs, b)
  {
    hide RollsUp; hide CostOf; hide Strip; hide IsRollUpOf;
    costs := map[];
    var currency := OrElse(Strip(b.currency), "USD");
    NoItems(currency);
    if b.projects.None? {
      ItemsRollUp(costs, b);
      return;
    }
    var projects := b.projects.value;
    for p := 0 to |projects|
      invariant RollsUp(costs, Items(projects[..p]), currency)
    {
      assert projects[..p + 1][..p] == projects[..p];
      if projects[p].Unusable? {
        assert Items(projects[..p + 1]) == Items(projects[..p]) + [] == Items(projects[..p]);
        continue;
      }
      var resources := projects[p].resources;
      ghost var earlier := Items(projects[..p]);
      assert earlier + resources[..0] == earlier;
      for i := 0 to |resources|
        invariant RollsUp(costs, earlier + resources[..i], currency)
      {
        OneMoreItem(costs, earlier + resources[..i], currency, resources[i]);
        assert earlier + resources[..i + 1] == earlier + resources[..i] + [resources[i]];
        var parsed := ResourceCostOf(resources[i], currency);
        if parsed.None? {
          continue;
        }
        var address := parsed.value.address;
        costs := costs[address := if address in costs then Merge(costs[address], parsed.value) else parsed.value];
      }
      assert resources[..|resources|] == resources;
    }
    assert projects[..|projects|] == projects;
    ItemsRollUp(costs, b);
  }

  lemma NoItems(currency: string)
    ensures RollsUp(map[], [], currency)
  {
  }

  // ----- Totals -----

  function TotalOver(costs: Costs, addresses: seq<string>): real {
    if addresses == [] then 0.0
    else
      var last := addresses[|addresses| - 1];
      TotalOver(costs, addresses[..|addresses| - 1]) + if last in costs then costs[last].monthlyCost else 0.0
  }

  function Unpriced(costs: Costs, addresses: seq<string>): seq<string> {
    if addresses == [] then []
    else
      var earlier, last := Unpriced(costs, addresses[..|addresses| - 1]), addresses[|addresses| - 1];
      if last in costs then earlier else earlier + [last]
  }

  function Itself(address: string): string { address }

  /** The total over the priced addresses, and the unpriced ones in order, as often as they are listed. */
  method TotalMonthlyCost(costs: Costs, addresses: seq<string>) returns (total: real, unpriced: seq<string>)
    ensures total == TotalOver(costs, addresses)
    ensures multiset(unpriced) == multiset(Unpriced(costs, addresses)) && InOrder(Itself, unpriced)
  {
    total, unpriced := 0.0, [];
    for i := 0 to |addresses|
      invariant total == TotalOver(costs, addresses[..i])
      invariant unpriced == Unpriced(costs, addresses[..i])
    {
      assert addresses[..i + 1][..i] == addresses[..i];
      if addresses[i] !in costs {
        unpriced := unpriced + [addresses[i]];
        continue;
      }
      total := total + costs[addresses[i]].monthlyCost;
    }
    assert addresses[..|addresses|] == addresses;
    unpriced := Sort(Itself, unpriced);
  }

  function Priced(costs: Costs, addresses: seq<string>): seq<string> {
    if addresses == [] then []
    else
      var earlier, last := Priced(costs, addresses[..|addresses| - 1]), addresses[|addresses| - 1];
      if last in costs then earlier + [last] else earlier
  }

  lemma {:induction false} PricedAreIn(costs: Costs, addresses: seq<string>)
    ensures forall k | 0 <= k < |Priced(costs, addresses)| :: Priced(costs, addresses)[k] in costs
    ensures forall k | 0 <= k < |Unpriced(costs, addresses)| :: Unpriced(costs, addresses)[k] !in costs
  {
    if addresses != [] {
      PricedAreIn(costs, addresses[..|addresses| - 1]);
    }
  }

  lemma {:induction false} PricedPartition(costs: Costs, addresses: seq<string>)
    ensures multiset(addresses) == multiset(Priced(costs, addresses)) + multiset(Unpriced(costs, addresses))
  {
    if addresses != [] {
      var n := |addresses| - 1;
      PricedPartition(costs, addresses[..n]);
      assert addresses == addresses[..n] + [addresses[n]];
    }
  }

  lemma {:induction false} PricedTotal(costs: Costs, addresses: seq<string>)
    ensures TotalOver(costs, addresses) == TotalOver(costs, Priced(costs, addresses))
  {
    if addresses != [] {
      var n := |addresses| - 1;
      PricedTotal(costs, addresses[..n]);
      OnePricedMore(costs, Priced(costs, addresses[..n]), addresses[n]);
    }
  }

  /** Every address is priced or unpriced, as often as it is listed, and only the priced ones count. */
  lemma PricedAndUnpriced(costs: Costs, addresses: seq<string>)
    ensures multiset(addresses) == multiset(Priced(costs, addresses)) + multiset(Unpriced(costs, addresses))
    ensures forall k | 0 <= k < |Priced(costs, addresses)| :: Priced(costs, addresses)[k] in costs
    ensures forall k | 0 <= k < |Unpriced(costs, addresses)| :: Unpriced(costs, addresses)[k] !in costs
    ensures TotalOver(costs, addresses) == TotalOver(costs, Priced(costs, addresses))
  {
    hide Priced; hide Unpriced; hide TotalOver;
    PricedAreIn(costs, addresses);
    PricedTotal(costs, addresses);
    PricedPartition(costs, addresses);
  }

  lemma OnePricedMore(costs: Costs, addresses: seq<string>, last: string)
    ensures TotalOver(costs, addresses + [last]) ==
      TotalOver(costs, addresses) + if last in costs then costs[last].monthlyCost else 0.0
  {
    assert (addresses + [last])[..|addresses|] == addresses;
  }

  /** Totals over two lists add up. */
  lemma {:induction false} TotalsConcatenate(costs: Costs, addresses: seq<string>, more: seq<string>)
    ensures TotalOver(costs, addresses + more) == TotalOver(costs, addresses) + TotalOver(costs, more)
    ensures Unpriced(costs, addresses + more) == Unpriced(costs, addresses) + Unpriced(costs, more)
  {
    if more == [] {
      assert addresses + more == addresses;
    } else {
      assert (addresses + more)[..|addresses + more| - 1] == addresses + more[..|more| - 1];
      TotalsConcatenate(costs, addresses, more[..|more| - 1]);
    }
  }

  // ----- Conservation -----

  function SumAt(lines: seq<BillLine>, addresses: seq<string>): real {
    if addresses == [] then 0.0
    else SumAt(lines, addresses[..|addresses| - 1]) + SumFor(lines, addresses[|addresses| - 1])
  }

  ghost predicate Distinct(addresses: seq<string>) {
    forall i, j | 0 <= i < j < |addresses| :: addresses[i] != addresses[j]
  }

  /** A line counts once in the sum over distinct addresses that include its own. */
  lemma {:induction false} LineCountsOnce(lines: seq<BillLine>, addresses: seq<string>)
    requires lines != [] && Distinct(addresses)
    ensures var last := lines[|lines| - 1];
      SumAt(lines, addresses) ==
      SumAt(lines[..|lines| - 1], addresses) + if last.address in addresses then last.price else 0.0
  {
    if addresses != [] {
      var n := |addresses| - 1;
      LineCountsOnce(lines, addresses[..n]);
      assert addresses == addresses[..n] + [addresses[n]];
      assert addresses[n] !in addresses[..n];
    }
  }

  lemma {:induction false} SumAtNothing(addresses: seq<string>)
    ensures SumAt([], addresses) == 0.0
  {
    if addresses != [] { SumAtNothing(addresses[..|addresses| - 1]); }
  }

  /** Distinct addresses that include every billed one share out the bill. */
  lemma {:induction false} SharesAddUp(lines: seq<BillLine>, addresses: seq<string>)
    requires Distinct(addresses) && forall k | 0 <= k < |lines| :: lines[k].address in addresses
    ensures SumAt(lines, addresses) == SumOf(lines)
  {
    hide SumAt;
    if lines == [] {
      SumAtNothing(addresses);
    } else {
      SharesAddUp(lines[..|lines| - 1], addresses);
      LineCountsOnce(lines, addresses);
    }
  }

  lemma {:induction false} TotalIsSumAt(costs: Costs, b: Breakdown, addresses: seq<string>)
    requires IsRollUpOf(costs, b) && forall k | 0 <= k < |addresses| :: addresses[k] in costs
    ensures TotalOver(costs, addresses) == SumAt(Bill(b), addresses)
    ensures Unpriced(costs, addresses) == []
  {
    hide IsNamed; hide Bill; hide SumFor; hide Strip;
    if addresses != [] {
      TotalIsSumAt(costs, b, addresses[..|addresses| - 1]);
    }
  }

  lemma {:induction false} SubLinesAreAt(address: string, subs: seq<SubItem>)
    ensures forall k | 0 <= k < |SubLines(address, subs)| :: SubLines(address, subs)[k].address == address
  {
    if subs != [] { SubLinesAreAt(address, subs[..|subs| - 1]); }
  }

  /** Whatever is billed is billed to a named address. */
  lemma {:induction false} LinesAreNamed(items: seq<Item>)
    ensures forall k | 0 <= k < |Lines(items)| :: IsNamedIn(items, Lines(items)[k].address)
  {
    hide IsNamedIn;
    if items != [] {
      var n := |items| - 1;
      var item := items[n];
      LinesAreNamed(items[..n]);
      assert items == items[..n] + [item];
      forall a { NamedWithOneMore(items[..n], item, a); }
      if item.Resource? { SubLinesAreAt(Strip(item.name), item.subresources); }
      hide SubLines;
    }
  }

  lemma BilledIsNamed(b: Breakdown)
    ensures forall k | 0 <= k < |Bill(b)| :: IsNamed(b, Bill(b)[k].address)
  {
    hide Lines; hide ProjectLines; hide IsNamedIn; hide IsNamedAt;
    if b.projects.Some? {
      LinesAreNamed(AllItems(b));
      ItemsAreBilled(b.projects.value, "");
      forall k | 0 <= k < |Bill(b)| ensures IsNamed(b, Bill(b)[k].address) {
        ItemsAreBilled(b.projects.value, Bill(b)[k].address);
      }
    }
  }

  /**
   Nothing is lost and nothing counted twice: listing every key of the map once, in any order, totals
   to the whole bill, and leaves nothing unpriced.
   */
  lemma CostIsConserved(b: Breakdown, costs: Costs, addresses: seq<string>)
    requires IsRollUpOf(costs, b)
    requires Distinct(addresses) && forall a :: a in addresses <==> a in costs
    ensures TotalOver(costs, addresses) == SumOf(Bill(b))
    ensures Unpriced(costs, addresses) == []
  {
    hide TotalOver; hide Unpriced; hide Bill; hide IsNamed; hide SumOf; hide SumAt; hide SumFor; hide Strip;
    TotalIsSumAt(costs, b, addresses);
    BilledIsNamed(b);
    SharesAddUp(Bill(b), addresses);
  }
}
